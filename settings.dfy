/**
 * The settings table and `/api/settings`: `GET` lists every row, `PUT`
 * upserts every key of the submitted object.
 *
 * The upserts of one `PUT` run side by side under `Promise.all`; their keys
 * are distinct, so they touch distinct rows and are applied here one after
 * another in entry order. `failing` names the keys whose upsert the
 * database rejects: those rows are left as they were, the others are still
 * written, and the response is the 500 error.
 */
module Settings {
  import opened JsText

  datatype Setting = Setting(key: string, value: string)

  /** The parsed JSON object of a PUT: its entries, in `Object.entries` order. */
  type Entries = seq<(string, string)>

  /** The keys of a JSON object are distinct. */
  predicate DistinctKeys(entries: Entries) {
    forall i, j :: 0 <= i < j < |entries| ==> entries[i].0 != entries[j].0
  }

  predicate UniqueKeys(rows: seq<Setting>) {
    forall i, j :: 0 <= i < j < |rows| ==> rows[i].key != rows[j].key
  }

  /** The value stored under `key`, if any. */
  function Lookup(rows: seq<Setting>, key: string): (r: Option<string>)
    ensures r.Some? ==> Setting(key, r.value) in rows
    ensures r.None? ==> forall s :: s in rows ==> s.key != key
  {
    if rows == [] then None
    else if rows[0].key == key then Some(rows[0].value)
    else
      var r := Lookup(rows[1..], key);
      assert forall s :: s in rows ==> s == rows[0] || s in rows[1..];
      r
  }

  /**
   * One `upsert` on the unique column `key`: the row holding the key gets
   * the new value in place, or a new row is added at the end.
   */
  function Upsert(rows: seq<Setting>, key: string, value: string): (r: seq<Setting>)
    ensures Lookup(r, key) == Some(value)
    ensures forall k :: k != key ==> Lookup(r, k) == Lookup(rows, k)
    ensures |r| == |rows| + (if Lookup(rows, key).None? then 1 else 0)
  {
    if rows == [] then [Setting(key, value)]
    else if rows[0].key == key then [Setting(key, value)] + rows[1..]
    else
      var rest := Upsert(rows[1..], key, value);
      var r := [rows[0]] + rest;
      assert forall k :: k != rows[0].key ==> Lookup(r, k) == Lookup(rest, k);
      r
  }

  /** Upserting keeps keys unique: the key's row is reused, or the key was absent. */
  lemma {:induction false} UpsertKeepsUnique(rows: seq<Setting>, key: string, value: string)
    requires UniqueKeys(rows)
    ensures UniqueKeys(Upsert(rows, key, value))
  {
    if rows != [] && rows[0].key != key {
      var rest := Upsert(rows[1..], key, value);
      var r := Upsert(rows, key, value);
      assert r == [rows[0]] + rest;
      UpsertKeepsUnique(rows[1..], key, value);
      assert Lookup(rows[1..], rows[0].key).None? by {
        forall s | s in rows[1..] ensures s.key != rows[0].key {
          var i :| 0 <= i < |rows[1..]| && rows[1..][i] == s;
          assert rows[i + 1] == s;
        }
      }
      assert Lookup(rest, rows[0].key).None?;
      forall i, j | 0 <= i < j < |r| ensures r[i].key != r[j].key {
        if i == 0 {
          assert r[j] in rest;
        } else {
          assert r[i] == rest[i - 1] && r[j] == rest[j - 1];
        }
      }
    }
  }

  /** Upserting a value the key already holds changes nothing. */
  lemma {:induction false} UpsertSameValue(rows: seq<Setting>, key: string, value: string)
    requires Lookup(rows, key) == Some(value)
    ensures Upsert(rows, key, value) == rows
  {
    if rows[0].key != key {
      UpsertSameValue(rows[1..], key, value);
      assert rows == [rows[0]] + rows[1..];
    }
  }

  /** The upserts of `entries`, applied in order. */
  function UpsertAll(rows: seq<Setting>, entries: Entries): seq<Setting>
  {
    if entries == [] then rows
    else
      var last := entries[|entries| - 1];
      Upsert(UpsertAll(rows, entries[..|entries| - 1]), last.0, last.1)
  }

  /** The entries whose upsert succeeds. */
  function Kept(entries: Entries, failing: set<string>): (r: Entries)
    ensures |r| <= |entries|
  {
    if entries == [] then []
    else
      var last := entries[|entries| - 1];
      Kept(entries[..|entries| - 1], failing) + (if last.0 in failing then [] else [last])
  }

  /** The kept entries are exactly the submitted ones whose key does not fail. */
  lemma {:induction false} KeptMembers(entries: Entries, failing: set<string>)
    ensures forall e :: e in Kept(entries, failing) <==> e in entries && e.0 !in failing
  {
    if entries != [] {
      var last := entries[|entries| - 1];
      var init := entries[..|entries| - 1];
      KeptMembers(init, failing);
      assert entries == init + [last];
    }
  }

  lemma {:induction false} KeptAll(entries: Entries, failing: set<string>)
    requires forall i :: 0 <= i < |entries| ==> entries[i].0 !in failing
    ensures Kept(entries, failing) == entries
  {
    if entries != [] {
      var init := entries[..|entries| - 1];
      assert forall i :: 0 <= i < |init| ==> init[i] == entries[i];
      KeptAll(init, failing);
      assert Kept(entries, failing) == init + [entries[|entries| - 1]];
      assert entries == init + [entries[|entries| - 1]];
    }
  }

  lemma {:induction false} KeptDistinct(entries: Entries, failing: set<string>)
    requires DistinctKeys(entries)
    ensures DistinctKeys(Kept(entries, failing))
  {
    if entries != [] {
      var init := entries[..|entries| - 1];
      var last := entries[|entries| - 1];
      assert DistinctKeys(init);
      KeptDistinct(init, failing);
      KeptMembers(init, failing);
      var r := Kept(entries, failing);
      var k := Kept(init, failing);
      if last.0 !in failing {
        forall i, j | 0 <= i < j < |r| ensures r[i].0 != r[j].0 {
          if j == |k| {
            assert r[i] in init;
            var m :| 0 <= m < |init| && init[m] == r[i];
            assert entries[m] == r[i];
          } else {
            assert r[i] == k[i] && r[j] == k[j];
          }
        }
      }
    }
  }

  /** After the upserts every entry's key holds its value (the keys being distinct). */
  lemma {:induction false} UpsertAllStores(rows: seq<Setting>, entries: Entries)
    requires DistinctKeys(entries)
    ensures forall e :: e in entries ==> Lookup(UpsertAll(rows, entries), e.0) == Some(e.1)
  {
    if entries != [] {
      var init := entries[..|entries| - 1];
      var last := entries[|entries| - 1];
      UpsertAllStores(rows, init);
      forall e | e in entries ensures Lookup(UpsertAll(rows, entries), e.0) == Some(e.1) {
        if e != last {
          var m :| 0 <= m < |entries| && entries[m] == e;
          assert m < |entries| - 1;
          assert e in init;
        }
      }
    }
  }

  /** Keys absent from the entries keep their previous value (or their absence). */
  lemma {:induction false} UpsertAllFrame(rows: seq<Setting>, entries: Entries, key: string)
    requires forall e :: e in entries ==> e.0 != key
    ensures Lookup(UpsertAll(rows, entries), key) == Lookup(rows, key)
  {
    if entries != [] {
      var init := entries[..|entries| - 1];
      assert forall e :: e in init ==> e in entries;
      UpsertAllFrame(rows, init, key);
    }
  }

  /** A missing key is created and an existing one overwritten, so keys stay unique. */
  lemma {:induction false} UpsertAllUnique(rows: seq<Setting>, entries: Entries)
    requires UniqueKeys(rows)
    ensures UniqueKeys(UpsertAll(rows, entries))
  {
    if entries != [] {
      var last := entries[|entries| - 1];
      UpsertAllUnique(rows, entries[..|entries| - 1]);
      UpsertKeepsUnique(UpsertAll(rows, entries[..|entries| - 1]), last.0, last.1);
    }
  }

  /** Upserting values every key already holds changes nothing. */
  lemma {:induction false} UpsertAllHeld(rows: seq<Setting>, entries: Entries)
    requires forall e :: e in entries ==> Lookup(rows, e.0) == Some(e.1)
    ensures UpsertAll(rows, entries) == rows
  {
    if entries != [] {
      var init := entries[..|entries| - 1];
      var last := entries[|entries| - 1];
      assert forall e :: e in init ==> e in entries;
      UpsertAllHeld(rows, init);
      UpsertSameValue(rows, last.0, last.1);
    }
  }

  /** Submitting the same object twice leaves the table as submitting it once. */
  lemma UpsertAllIdempotent(rows: seq<Setting>, entries: Entries)
    requires DistinctKeys(entries)
    ensures UpsertAll(UpsertAll(rows, entries), entries) == UpsertAll(rows, entries)
  {
    UpsertAllStores(rows, entries);
    UpsertAllHeld(UpsertAll(rows, entries), entries);
  }

  datatype PutResponse = PutSuccess | PutError(status: int, error: string)

  datatype GetResponse = SettingList(settings: seq<Setting>) | GetError(status: int, error: string)

  const PutFailed := "Failed to update settings"
  const GetFailed := "Failed to fetch settings"

  /** The settings table. */
  class SettingsStore {
    var rows: seq<Setting>

    constructor (initial: seq<Setting>)
      ensures rows == initial
    {
      rows := initial;
    }

    /**
     * `PUT /api/settings`. A body that is not JSON changes nothing. Otherwise
     * every entry is upserted, except those whose key is in `failing`; the
     * answer is success exactly when none failed.
     */
    method Put(body: Option<Entries>, failing: set<string>) returns (response: PutResponse)
      requires body.Some? ==> DistinctKeys(body.value)
      modifies this
      ensures body.None? ==> rows == old(rows) && response == PutError(500, PutFailed)
      ensures body.Some? ==> rows == UpsertAll(old(rows), Kept(body.value, failing))
      ensures body.Some? ==>
        (response == PutSuccess <==> forall e :: e in body.value ==> e.0 !in failing)
      ensures response != PutSuccess ==> response == PutError(500, PutFailed)
    {
      if body.None? {
        return PutError(500, PutFailed);
      }
      rows := UpsertAll(rows, Kept(body.value, failing));
      if exists e :: e in body.value && e.0 in failing {
        response := PutError(500, PutFailed);
      } else {
        response := PutSuccess;
      }
    }

    /** `GET /api/settings`: every stored row, or the 500 error when the read fails. */
    method Get(readOk: bool) returns (response: GetResponse)
      ensures readOk ==> response == SettingList(rows)
      ensures !readOk ==> response == GetError(500, GetFailed)
    {
      if readOk {
        response := SettingList(rows);
      } else {
        response := GetError(500, GetFailed);
      }
    }
  }

  /** Every submitted value whose upsert did not fail is stored under its key; after a success, every one. */
  lemma PutStoresEveryKey(rows: seq<Setting>, entries: Entries, failing: set<string>)
    requires DistinctKeys(entries)
    ensures forall e :: e in entries && e.0 !in failing ==> Lookup(UpsertAll(rows, Kept(entries, failing)), e.0) == Some(e.1)
  {
    KeptDistinct(entries, failing);
    KeptMembers(entries, failing);
    UpsertAllStores(rows, Kept(entries, failing));
  }

  /** Keys the body does not name, and keys whose upsert failed, keep their previous value. */
  lemma PutKeepsOtherKeys(rows: seq<Setting>, entries: Entries, failing: set<string>, key: string)
    requires (forall e :: e in entries ==> e.0 != key) || key in failing
    ensures Lookup(UpsertAll(rows, Kept(entries, failing)), key) == Lookup(rows, key)
  {
    KeptMembers(entries, failing);
    UpsertAllFrame(rows, Kept(entries, failing), key);
  }

  /** A PUT, successful or not, keeps the keys unique. */
  lemma PutKeepsKeysUnique(rows: seq<Setting>, entries: Entries, failing: set<string>)
    requires UniqueKeys(rows)
    ensures UniqueKeys(UpsertAll(rows, Kept(entries, failing)))
  {
    UpsertAllUnique(rows, Kept(entries, failing));
  }

  /** Two successful PUTs of the same body leave the table of one. */
  lemma PutIdempotent(rows: seq<Setting>, entries: Entries)
    requires DistinctKeys(entries)
    ensures var once := UpsertAll(rows, Kept(entries, {}));
      UpsertAll(once, Kept(entries, {})) == once
  {
    KeptAll(entries, {});
    UpsertAllIdempotent(rows, entries);
  }
}
