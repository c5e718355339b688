/** The cache-aside accessors of `db/database.js`. The durable table is a map
    from `(user, sort key)` to an attribute map; the cache is the memcached
    store of module `Cache`. Table reads (Query, GetItem, Scan) are answers of
    the store collaborator passed in as values; writes carry a flag saying
    whether the store accepted them, and cache calls carry flags saying
    whether memcached answered. Timestamps are parameters: `nowMs` is
    `Date.now()`, `iso` is `new Date().toISOString()`, `now` is the cache
    clock in seconds. */
module Database {
  import opened Wrappers
  import opened Js
  import Strings
  import Cache

  datatype RowKey = RowKey(user: Value, sort: Value)

  type Row = map<string, Value>

  datatype State = State(table: map<RowKey, Row>, cache: Cache.Store)

  /** What the store answers to a Query or a Scan. */
  datatype QueryAnswer = QueryFailed | Items(rows: seq<Row>)

  /** What the store answers to a GetItem. */
  datatype ItemAnswer = ItemFailed | NoItem | Found(row: Row)

  /** A read's answer together with the state it leaves behind. */
  datatype Read = Read(value: Value, state: State)

  /** `marshall`: attributes whose value is `undefined` are not stored. */
  function Marshall(item: Row): Row {
    map k | k in item && item[k] != Undef :: item[k]
  }

  // ---- saveUserActivity -----------------------------------------------------

  function ActivityId(nowMs: nat): string {
    "ACTIVITY#" + Strings.NatToString(nowMs)
  }

  function ActivityKey(username: string, nowMs: nat): RowKey {
    RowKey(Str(username), Str(ActivityId(nowMs)))
  }

  /** `saveUserActivity(username, activity)`: one row per millisecond, a
      rejected put is logged and swallowed, the cache is never touched. */
  function SaveUserActivity(st: State, username: string, activity: string, nowMs: nat, iso: string, putOk: bool): (st': State)
    ensures st'.cache == st.cache
    ensures !putOk ==> st' == st
    ensures putOk ==>
      var k := ActivityKey(username, nowMs);
      && k in st'.table
      && st'.table[k].Keys == {"user", "activityId", "activity", "timestamp"}
      && st'.table[k]["user"] == Str(username)
      && st'.table[k]["activityId"] == Str("ACTIVITY#" + Strings.NatToString(nowMs))
      && st'.table[k]["activity"] == Str(activity)
      && st'.table[k]["timestamp"] == Str(iso)
      && st'.table.Keys == st.table.Keys + {k}
      && (forall other :: other in st.table && other != k ==> st'.table[other] == st.table[other])
  {
    if putOk then
      var row := map[
        "user" := Str(username),
        "activityId" := Str(ActivityId(nowMs)),
        "activity" := Str(activity),
        "timestamp" := Str(iso)];
      State(st.table[ActivityKey(username, nowMs) := row], st.cache)
    else
      st
  }

  lemma ActivityIdInjective(t1: nat, t2: nat)
    requires ActivityId(t1) == ActivityId(t2)
    ensures t1 == t2
  {
    var p := "ACTIVITY#";
    assert Strings.NatToString(t1) == ActivityId(t1)[|p|..];
    assert Strings.NatToString(t2) == ActivityId(t2)[|p|..];
    Strings.NatToStringInjective(t1, t2);
  }

  /** Two activities of one user recorded in different milliseconds are both
      kept; two in the same millisecond share a row and the later one wins. */
  lemma ActivitiesInDistinctMillisecondsBothKept(st: State, u: string, a1: string, a2: string, t1: nat, t2: nat, iso1: string, iso2: string)
    ensures var st2 := SaveUserActivity(SaveUserActivity(st, u, a1, t1, iso1, true), u, a2, t2, iso2, true);
      t1 != t2 ==> st2.table[ActivityKey(u, t1)]["activity"] == Str(a1) && st2.table[ActivityKey(u, t2)]["activity"] == Str(a2)
    ensures var st2 := SaveUserActivity(SaveUserActivity(st, u, a1, t1, iso1, true), u, a2, t2, iso2, true);
      t1 == t2 ==> st2.table[ActivityKey(u, t1)]["activity"] == Str(a2)
  {
    if t1 != t2 && ActivityId(t1) == ActivityId(t2) {
      ActivityIdInjective(t1, t2);
    }
  }

  // ---- saveFileMetadata -----------------------------------------------------

  /** The durable row `saveFileMetadata` writes. */
  function MetadataRow(meta: Row, iso: string): Row {
    var m := Obj(meta);
    Marshall(map[
      "user" := Get(m, "user"),
      "fileName" := Get(m, "fileName"),
      "size" := Get(m, "size"),
      "format" := Or(Get(m, "format"), Null),
      "resolution" := Or(Get(m, "resolution"), Null),
      "uploadTime" := Or(Get(m, "uploadTime"), Str(iso))])
  }

  /** The durable row holds at most six attributes; in particular neither
      the upload's `status` nor its `progressId`. */
  lemma MetadataRowAttributes(meta: Row, iso: string)
    ensures var row := MetadataRow(meta, iso);
      && row.Keys <= {"user", "fileName", "size", "format", "resolution", "uploadTime"}
      && "status" !in row && "progressId" !in row && "progress" !in row
  {
  }

  /** `format` and `resolution` default to `null` and `uploadTime` to the
      current time; `user`, `fileName` and `size` are copied when defined. */
  lemma MetadataRowDefaults(meta: Row, iso: string)
    ensures var row := MetadataRow(meta, iso);
      && "format" in row && "resolution" in row && "uploadTime" in row
      && row["format"] == (if Truthy(Get(Obj(meta), "format")) then Get(Obj(meta), "format") else Null)
      && row["resolution"] == (if Truthy(Get(Obj(meta), "resolution")) then Get(Obj(meta), "resolution") else Null)
      && (Truthy(Get(Obj(meta), "uploadTime")) ==> row["uploadTime"] == Get(Obj(meta), "uploadTime"))
      && (!Truthy(Get(Obj(meta), "uploadTime")) ==> row["uploadTime"] == Str(iso))
      && (forall a :: a in {"user", "fileName", "size"} && a in meta && meta[a] != Undef ==> a in row && row[a] == meta[a])
  {
  }

  function MetadataKey(meta: Row): RowKey {
    RowKey(Get(Obj(meta), "user"), Get(Obj(meta), "fileName"))
  }

  /** `${fileMetadata.user}`, the user part of the file-list cache key. */
  function MetadataOwner(meta: Row): string {
    ToJsString(Get(Obj(meta), "user"))
  }

  /** `existing || []` with `meta` pushed on; `None` when `existing` is truthy
      but not an array, where `push` throws. */
  function Appended(existing: Value, meta: Row): Option<Value> {
    if !Truthy(existing) then Some(Arr([Obj(meta)]))
    else if existing.Arr? then Some(Arr(existing.items + [Obj(meta)]))
    else None
  }

  /** `saveFileMetadata(fileMetadata)`: the durable put comes first; only
      once it succeeded is the cached list read, extended at its end by the
      full input object, and written back. */
  function SaveFileMetadata(st: State, meta: Row, iso: string, now: int, putOk: bool, getOk: bool, setOk: bool): (st': State)
    ensures !putOk ==> st' == st
    ensures putOk ==> st'.table == st.table[MetadataKey(meta) := MetadataRow(meta, iso)]
    ensures forall k :: k != Cache.FilesKey(MetadataOwner(meta)) ==>
      (k in st'.cache <==> k in st.cache) && (k in st.cache ==> st'.cache[k] == st.cache[k])
    ensures var existing := Cache.GetCachedFileMetadata(st.cache, MetadataOwner(meta), now, getOk);
      putOk && setOk && !Truthy(existing) ==>
        Cache.Lookup(st'.cache, Cache.FilesKey(MetadataOwner(meta)), now) == Some(Arr([Obj(meta)]))
    ensures var existing := Cache.GetCachedFileMetadata(st.cache, MetadataOwner(meta), now, getOk);
      putOk && setOk && existing.Arr? ==>
        Cache.Lookup(st'.cache, Cache.FilesKey(MetadataOwner(meta)), now) == Some(Arr(existing.items + [Obj(meta)]))
    ensures var existing := Cache.GetCachedFileMetadata(st.cache, MetadataOwner(meta), now, getOk);
      !setOk || (Truthy(existing) && !existing.Arr?) ==> st'.cache == st.cache
  {
    if !putOk then st
    else
      var table := st.table[MetadataKey(meta) := MetadataRow(meta, iso)];
      var owner := MetadataOwner(meta);
      var existing := Cache.GetCachedFileMetadata(st.cache, owner, now, getOk);
      match Appended(existing, meta)
      case None => State(table, st.cache)
      case Some(list) => State(table, Cache.CacheFileMetadata(st.cache, owner, list, now, setOk))
  }

  // ---- saveProgress / getProgress -------------------------------------------

  /** `progress:${username}:${fileName}` */
  function ProgressKey(username: Value, fileName: Value): string {
    "progress:" + ToJsString(username) + ":" + ToJsString(fileName)
  }

  function ProgressRow(username: Value, fileName: Value, data: Value, iso: string): Row {
    Marshall(map["user" := username, "fileName" := fileName, "progress" := data, "lastUpdated" := Str(iso)])
  }

  /** `saveProgress(username, fileName, progressData)`: the durable put comes
      first and the cache entry is written only after it succeeded; any
      failure is swallowed. */
  function SaveProgress(st: State, username: Value, fileName: Value, data: Value, iso: string, now: int, putOk: bool, setOk: bool): (st': State)
    ensures !putOk ==> st' == st
    ensures putOk ==> st'.table == st.table[RowKey(username, fileName) := ProgressRow(username, fileName, data, iso)]
    ensures putOk && setOk ==> Cache.Lookup(st'.cache, ProgressKey(username, fileName), now) == Some(data)
    ensures putOk && setOk ==> st'.cache[ProgressKey(username, fileName)].expiresAt == now + 3600
    ensures forall k :: k != ProgressKey(username, fileName) ==>
      (k in st'.cache <==> k in st.cache) && (k in st.cache ==> st'.cache[k] == st.cache[k])
    ensures !setOk ==> st'.cache == st.cache
  {
    if !putOk then st
    else
      var table := st.table[RowKey(username, fileName) := ProgressRow(username, fileName, data, iso)];
      var cache := if setOk then Cache.Put(st.cache, ProgressKey(username, fileName), data, now) else st.cache;
      State(table, cache)
  }

  /** `getProgress(username, fileName)`. A live cache entry is returned as is.
      On a miss the table is asked for the item keyed by `user` alone; a found
      item is cached under the progress key and returned. A missing item, a
      store error, a cache read error or a cache write error all give `null`.
      The table is never written. */
  function GetProgress(st: State, username: Value, fileName: Value, now: int, getOk: bool, item: ItemAnswer, setOk: bool): (r: Read)
    ensures r.state.table == st.table
    ensures !getOk ==> r == Read(Null, st)
    ensures var hit := Cache.Lookup(st.cache, ProgressKey(username, fileName), now);
      getOk && hit.Some? ==> r == Read(hit.value, st)
    ensures var hit := Cache.Lookup(st.cache, ProgressKey(username, fileName), now);
      getOk && hit.None? && item.Found? && setOk ==>
        r.value == Obj(item.row) && r.state.cache == Cache.Put(st.cache, ProgressKey(username, fileName), Obj(item.row), now)
    ensures var hit := Cache.Lookup(st.cache, ProgressKey(username, fileName), now);
      getOk && hit.None? && !(item.Found? && setOk) ==> r == Read(Null, st)
  {
    var key := ProgressKey(username, fileName);
    if !getOk then Read(Null, st)
    else
      match Cache.Lookup(st.cache, key, now)
      case Some(v) => Read(v, st)
      case None =>
        match item
        case Found(row) =>
          if setOk then Read(Obj(row), State(st.table, Cache.Put(st.cache, key, Obj(row), now)))
          else Read(Null, st)
        case _ => Read(Null, st)
  }

  /** Read-your-write for one `(username, fileName)` pair: progress saved at
      `t0` is what `getProgress` with the same pair returns within the hour,
      whatever the table would answer. */
  lemma SaveThenGetProgress(st: State, u: Value, f: Value, data: Value, iso: string, t0: int, t1: int, item: ItemAnswer, setOk: bool)
    requires t0 <= t1 < t0 + Cache.Ttl
    ensures GetProgress(SaveProgress(st, u, f, data, iso, t0, true, true), u, f, t1, true, item, setOk).value == data
  {
  }

  /** On a cache miss the answer does not depend on `fileName`: the table is
      asked by user alone. */
  lemma GetProgressIgnoresFileNameOnMiss(st: State, u: Value, f1: Value, f2: Value, now: int, item: ItemAnswer, setOk: bool)
    requires Cache.Lookup(st.cache, ProgressKey(u, f1), now).None?
    requires Cache.Lookup(st.cache, ProgressKey(u, f2), now).None?
    ensures GetProgress(st, u, f1, now, true, item, setOk).value == GetProgress(st, u, f2, now, true, item, setOk).value
  {
  }

  // ---- getFileMetadata ------------------------------------------------------

  predicate HasFileName(row: Row) {
    Truthy(Get(Obj(row), "fileName"))
  }

  /** `items.map(unmarshall).filter(item => item.fileName)`. */
  function FileRows(rows: seq<Row>): (files: seq<Value>)
    ensures |files| <= |rows|
    ensures forall i :: 0 <= i < |files| ==> files[i].Obj? && files[i].fields in rows && HasFileName(files[i].fields)
    ensures forall row :: row in rows && HasFileName(row) ==> Obj(row) in files
  {
    if |rows| == 0 then []
    else (if HasFileName(rows[0]) then [Obj(rows[0])] else []) + FileRows(rows[1..])
  }

  /** The filter keeps the store's order: it distributes over concatenation. */
  lemma {:induction false} FileRowsAppend(a: seq<Row>, b: seq<Row>)
    ensures FileRows(a + b) == FileRows(a) + FileRows(b)
  {
    if |a| > 0 {
      assert (a + b)[1..] == a[1..] + b;
      FileRowsAppend(a[1..], b);
    } else {
      assert a + b == b;
    }
  }

  /** `getFileMetadata(username)`. A truthy cached list is returned as is and
      the table is not asked. Otherwise the rows the Query returns that carry a
      `fileName` are returned in order, and cached when there is at least one;
      a failing Query or an empty answer gives `[]`. */
  function GetFileMetadata(st: State, username: string, now: int, getOk: bool, query: QueryAnswer, setOk: bool): (r: Read)
    ensures r.state.table == st.table
    ensures var cached := Cache.GetCachedFileMetadata(st.cache, username, now, getOk);
      Truthy(cached) ==> r == Read(cached, st)
    ensures var cached := Cache.GetCachedFileMetadata(st.cache, username, now, getOk);
      !Truthy(cached) && query.QueryFailed? ==> r == Read(Arr([]), st)
    ensures var cached := Cache.GetCachedFileMetadata(st.cache, username, now, getOk);
      !Truthy(cached) && query.Items? ==>
        && r.value == Arr(FileRows(query.rows))
        && (|FileRows(query.rows)| > 0 && setOk ==> r.state.cache == Cache.Put(st.cache, Cache.FilesKey(username), r.value, now))
        && (|FileRows(query.rows)| == 0 || !setOk ==> r.state.cache == st.cache)
  {
    var cached := Cache.GetCachedFileMetadata(st.cache, username, now, getOk);
    if Truthy(cached) then Read(cached, st)
    else
      match query
      case QueryFailed => Read(Arr([]), st)
      case Items(rows) =>
        if |rows| == 0 then Read(Arr([]), st)
        else
          var files := FileRows(rows);
          if |files| > 0 then
            Read(Arr(files), State(st.table, Cache.CacheFileMetadata(st.cache, username, Arr(files), now, setOk)))
          else
            Read(Arr(files), st)
  }

  /** `ks` is an order in which a Query on `user = username` can return the
      table: every key of that user, each exactly once. */
  predicate QueryOrder(st: State, username: string, ks: seq<RowKey>) {
    && (forall i :: 0 <= i < |ks| ==> ks[i] in st.table && ks[i].user == Str(username))
    && (forall i, j :: 0 <= i < j < |ks| ==> ks[i] != ks[j])
    && (forall k :: k in st.table && k.user == Str(username) ==> k in ks)
  }

  /** The rows of the table under the keys `ks`, in that order. */
  function UserRows(st: State, ks: seq<RowKey>): (rows: seq<Row>)
    requires forall i :: 0 <= i < |ks| ==> ks[i] in st.table
    ensures |rows| == |ks|
    ensures forall i :: 0 <= i < |ks| ==> rows[i] == st.table[ks[i]]
  {
    if |ks| == 0 then [] else [st.table[ks[0]]] + UserRows(st, ks[1..])
  }

  /** On a cache miss, a read whose Query answers from the table lists
      exactly the user's rows that carry a `fileName`. */
  lemma ColdReadListsUserFiles(st: State, username: string, now: int, getOk: bool, ks: seq<RowKey>, setOk: bool)
    requires QueryOrder(st, username, ks)
    requires !Truthy(Cache.GetCachedFileMetadata(st.cache, username, now, getOk))
    ensures var r := GetFileMetadata(st, username, now, getOk, Items(UserRows(st, ks)), setOk);
      && r.value.Arr?
      && (forall k :: k in st.table && k.user == Str(username) && HasFileName(st.table[k]) ==>
            Obj(st.table[k]) in r.value.items)
      && (forall v :: v in r.value.items ==>
            exists k :: k in st.table && k.user == Str(username) && HasFileName(st.table[k]) && v == Obj(st.table[k]))
  {
    var rows := UserRows(st, ks);
    var r := GetFileMetadata(st, username, now, getOk, Items(rows), setOk);
    assert r.value == Arr(FileRows(rows));
    forall k | k in st.table && k.user == Str(username) && HasFileName(st.table[k])
      ensures Obj(st.table[k]) in r.value.items
    {
      var i :| 0 <= i < |ks| && ks[i] == k;
      assert rows[i] == st.table[k];
    }
    forall v | v in r.value.items
      ensures exists k :: k in st.table && k.user == Str(username) && HasFileName(st.table[k]) && v == Obj(st.table[k])
    {
      var n :| 0 <= n < |r.value.items| && r.value.items[n] == v;
      var i :| 0 <= i < |rows| && rows[i] == v.fields;
      assert ks[i] in st.table && v == Obj(st.table[ks[i]]);
    }
  }

  /** A metadata row the store accepted is listed by the next cold read of
      its owner's files. */
  lemma SavedMetadataListedOnColdRead(st: State, meta: Row, iso: string, now: int, getOk: bool, setOk: bool,
                                      after: State, username: string, ks: seq<RowKey>, getOk': bool, setOk': bool)
    requires Get(Obj(meta), "user") == Str(username) && Truthy(Get(Obj(meta), "fileName"))
    requires after == SaveFileMetadata(st, meta, iso, now, true, getOk, setOk)
    requires QueryOrder(after, username, ks)
    requires !Truthy(Cache.GetCachedFileMetadata(after.cache, username, now, getOk'))
    ensures Obj(MetadataRow(meta, iso)) in GetFileMetadata(after, username, now, getOk', Items(UserRows(after, ks)), setOk').value.items
  {
    var row := MetadataRow(meta, iso);
    MetadataRowDefaults(meta, iso);
    assert "fileName" in meta && meta["fileName"] != Undef;
    assert Get(Obj(row), "fileName") == meta["fileName"];
    assert after.table[MetadataKey(meta)] == row;
    ColdReadListsUserFiles(after, username, now, getOk', ks, setOk');
  }

  // ---- deleteFile -----------------------------------------------------------

  /** `deleteFile(username, fileName)`: the only accessor that rethrows the
      store's error. The cached file list is not invalidated. */
  function DeleteFile(st: State, username: string, fileName: string, ok: bool): (r: Result<State, string>)
    ensures r.Success? <==> ok
    ensures r.Success? ==> r.value.table == st.table - {RowKey(Str(username), Str(fileName))}
    ensures r.Success? ==> r.value.cache == st.cache
  {
    if ok then Success(State(st.table - {RowKey(Str(username), Str(fileName))}, st.cache))
    else Failure("delete rejected by the store")
  }

  // ---- getAllUsers ----------------------------------------------------------

  datatype UserEntry = UserEntry(username: Value, role: Value)

  predicate HasUsername(row: Row) {
    Truthy(Get(Obj(row), "username"))
  }

  /** The property name `uniqueUsers[user.username]` uses. */
  function UserKey(row: Row): string {
    ToJsString(Get(Obj(row), "username"))
  }

  function EntryKey(e: UserEntry): string {
    ToJsString(e.username)
  }

  /** `{ username: user.username, role: user.role || 'user' }` */
  function EntryOf(row: Row): UserEntry {
    UserEntry(Get(Obj(row), "username"), Or(Get(Obj(row), "role"), Str("user")))
  }

  /** The last row with a username whose property name is `key`. */
  function LastWithKey(rows: seq<Row>, key: string): Option<Row> {
    if |rows| == 0 then None
    else
      var last := rows[|rows| - 1];
      if HasUsername(last) && UserKey(last) == key then Some(last) else LastWithKey(rows[..|rows| - 1], key)
  }

  lemma {:induction false} LastWithKeyFindsEveryUser(rows: seq<Row>, row: Row)
    requires row in rows && HasUsername(row)
    ensures LastWithKey(rows, UserKey(row)).Some?
  {
    var last := rows[|rows| - 1];
    if !(HasUsername(last) && UserKey(last) == UserKey(row)) {
      assert row in rows[..|rows| - 1] by {
        var i :| 0 <= i < |rows| && rows[i] == row;
        assert i < |rows| - 1;
        assert rows[..|rows| - 1][i] == row;
      }
      LastWithKeyFindsEveryUser(rows[..|rows| - 1], row);
    }
  }

  /** Position of `key` in `keys`, if present. */
  function IndexOfKey(keys: seq<string>, key: string): (r: Option<nat>)
    ensures r.Some? ==> r.value < |keys| && keys[r.value] == key
    ensures r.None? ==> key !in keys
  {
    if |keys| == 0 then None
    else if keys[|keys| - 1] == key then Some(|keys| - 1)
    else IndexOfKey(keys[..|keys| - 1], key)
  }

  /** `getAllUsers()`: one entry per username (rows without one are skipped),
      each entry taken from the last row carrying that username, with role
      defaulting to `'user'`; a failing Scan gives `[]`. */
  method GetAllUsers(scan: QueryAnswer) returns (users: seq<UserEntry>)
    ensures scan.QueryFailed? ==> users == []
    ensures forall i, j :: 0 <= i < j < |users| ==> EntryKey(users[i]) != EntryKey(users[j])
    ensures scan.Items? ==> forall i :: 0 <= i < |users| ==>
      && LastWithKey(scan.rows, EntryKey(users[i])).Some?
      && users[i] == EntryOf(LastWithKey(scan.rows, EntryKey(users[i])).value)
    ensures scan.Items? ==> forall row :: row in scan.rows && HasUsername(row) ==>
      exists i :: 0 <= i < |users| && EntryKey(users[i]) == UserKey(row)
  {
    users := [];
    if scan.QueryFailed? {
      return;
    }
    var rows := scan.rows;
    var keys: seq<string> := [];
    var n := 0;
    while n < |rows|
      invariant 0 <= n <= |rows|
      invariant |keys| == |users|
      invariant forall i :: 0 <= i < |users| ==> keys[i] == EntryKey(users[i])
      invariant forall i, j :: 0 <= i < j < |keys| ==> keys[i] != keys[j]
      invariant forall i :: 0 <= i < |users| ==>
        LastWithKey(rows[..n], keys[i]).Some? && users[i] == EntryOf(LastWithKey(rows[..n], keys[i]).value)
      invariant forall k :: LastWithKey(rows[..n], k).Some? ==> k in keys
    {
      var row := rows[n];
      assert rows[..n + 1][..n] == rows[..n];
      if HasUsername(row) {
        var key := UserKey(row);
        assert EntryKey(EntryOf(row)) == key;
        match IndexOfKey(keys, key)
        case Some(j) =>
          users := users[j := EntryOf(row)];
        case None =>
          users := users + [EntryOf(row)];
          keys := keys + [key];
      }
      n := n + 1;
    }
    assert rows[..n] == rows;
    forall row | row in rows && HasUsername(row)
      ensures exists i :: 0 <= i < |users| && EntryKey(users[i]) == UserKey(row)
    {
      LastWithKeyFindsEveryUser(rows, row);
      var i :| 0 <= i < |keys| && keys[i] == UserKey(row);
    }
  }
}
