/** Rebuilding the dataset manifest from the shard manifests, and accepting the result. */
module DatasetManifest {
  import ScenarioCounts

  datatype Option<T> = None | Some(value: T)

  datatype FileEntry = FileEntry(table: string, path: string, rows: int, bytes: int, sha256: string, md5: string,
                                 schema: string)

  datatype Shard = Shard(shardId: int, version: string, planDigest: string, logical: int, physical: int,
                         scenarios: map<string, int>, files: seq<FileEntry>)

  datatype FileRecord = FileRecord(shardId: int, path: string, rows: int, bytes: int, sha256: string, md5: string)

  datatype TableEntry = TableEntry(rows: int, bytes: int, schemas: set<string>, files: seq<FileRecord>)

  datatype Header = Header(version: string, planDigest: string, shardCount: nat, logical: int, physical: int,
                           fraudLabelRows: int, fraudRows: int, scenarios: map<string, int>)

  datatype Manifest = Manifest(header: Header, totalBytes: int, tables: map<string, TableEntry>)

  datatype Spec = Spec(version: string, shardCount: nat, logical: int, physical: int, fraudLabelRows: int,
                       fraudRows: int, table: string, selectedShards: set<int>)

  const FRAUD_LABELS := "fraud_labels"

  // ---------------------------------------------------------------------------
  // Sums over file lists, shards and tables
  // ---------------------------------------------------------------------------

  function Bytes(files: seq<FileEntry>): int {
    if files == [] then 0 else Bytes(files[..|files| - 1]) + files[|files| - 1].bytes
  }

  function BytesFor(files: seq<FileEntry>, table: string): int {
    if files == [] then 0
    else
      var last := files[|files| - 1];
      BytesFor(files[..|files| - 1], table) + if last.table == table then last.bytes else 0
  }

  /** Bytes of files whose table is not listed. */
  function UnlistedBytes(files: seq<FileEntry>, order: seq<string>): int {
    if files == [] then 0
    else
      var last := files[|files| - 1];
      UnlistedBytes(files[..|files| - 1], order) + if last.table in order then 0 else last.bytes
  }

  function TotalBytes(shards: seq<Shard>): int {
    if shards == [] then 0 else TotalBytes(shards[..|shards| - 1]) + Bytes(shards[|shards| - 1].files)
  }

  function TableBytes(shards: seq<Shard>, table: string): int {
    if shards == [] then 0 else TableBytes(shards[..|shards| - 1], table) + BytesFor(shards[|shards| - 1].files, table)
  }

  function TotalUnlisted(shards: seq<Shard>, order: seq<string>): int {
    if shards == [] then 0
    else TotalUnlisted(shards[..|shards| - 1], order) + UnlistedBytes(shards[|shards| - 1].files, order)
  }

  /** Table by table instead of shard by shard. */
  function ListedBytes(shards: seq<Shard>, order: seq<string>): int {
    if order == [] then 0 else TableBytes(shards, order[0]) + ListedBytes(shards, order[1..])
  }

  function FilesListed(files: seq<FileEntry>, order: seq<string>): int {
    if order == [] then 0 else BytesFor(files, order[0]) + FilesListed(files, order[1..])
  }

  predicate Distinct(order: seq<string>) {
    forall i, j :: 0 <= i < j < |order| ==> order[i] != order[j]
  }

  lemma {:induction false} OneMoreFile(files: seq<FileEntry>, f: FileEntry, order: seq<string>)
    requires Distinct(order)
    ensures FilesListed(files + [f], order) == FilesListed(files, order) + if f.table in order then f.bytes else 0
  {
    assert (files + [f])[..|files|] == files;
    if order == [] {
    } else {
      OneMoreFile(files, f, order[1..]);
      assert order == [order[0]] + order[1..];
      assert order[0] !in order[1..];
    }
  }

  lemma {:induction false} FilesSplitByTable(files: seq<FileEntry>, order: seq<string>)
    requires Distinct(order)
    ensures Bytes(files) == FilesListed(files, order) + UnlistedBytes(files, order)
  {
    if files == [] {
      NoFilesNoBytes(order);
    } else {
      var init, last := files[..|files| - 1], files[|files| - 1];
      FilesSplitByTable(init, order);
      OneMoreFile(init, last, order);
      assert files == init + [last];
    }
  }

  lemma {:induction false} NoFilesNoBytes(order: seq<string>)
    ensures FilesListed([], order) == 0 && ListedBytes([], order) == 0
  {
    if order == [] {
    } else {
      NoFilesNoBytes(order[1..]);
    }
  }

  lemma {:induction false} OneMoreShard(shards: seq<Shard>, s: Shard, order: seq<string>)
    ensures ListedBytes(shards + [s], order) == ListedBytes(shards, order) + FilesListed(s.files, order)
  {
    assert (shards + [s])[..|shards|] == shards;
    if order == [] {
    } else {
      OneMoreShard(shards, s, order[1..]);
    }
  }

  /** The total taken shard by shard is the total taken table by table, plus the bytes of files
      whose table the first shard does not list. */
  lemma {:induction false} TotalSplitsByTable(shards: seq<Shard>, order: seq<string>)
    requires Distinct(order)
    ensures TotalBytes(shards) == ListedBytes(shards, order) + TotalUnlisted(shards, order)
  {
    if shards == [] {
      NoFilesNoBytes(order);
    } else {
      var init, last := shards[..|shards| - 1], shards[|shards| - 1];
      TotalSplitsByTable(init, order);
      FilesSplitByTable(last.files, order);
      OneMoreShard(init, last, order);
      assert shards == init + [last];
    }
  }

  lemma {:induction false} NothingUnlisted(shards: seq<Shard>, order: seq<string>)
    requires forall s, f :: s in shards && f in s.files ==> f.table in order
    ensures TotalUnlisted(shards, order) == 0
  {
    if shards == [] {
    } else {
      NothingUnlisted(shards[..|shards| - 1], order);
      NoUnlistedFile(shards[|shards| - 1].files, order);
    }
  }

  lemma {:induction false} NoUnlistedFile(files: seq<FileEntry>, order: seq<string>)
    requires forall f :: f in files ==> f.table in order
    ensures UnlistedBytes(files, order) == 0
  {
    if files == [] {
    } else {
      NoUnlistedFile(files[..|files| - 1], order);
    }
  }

  // ---------------------------------------------------------------------------
  // Rebuilding
  // ---------------------------------------------------------------------------

  function Matches(files: seq<FileEntry>, table: string): seq<FileEntry> {
    if files == [] then []
    else
      var last := files[|files| - 1];
      Matches(files[..|files| - 1], table) + if last.table == table then [last] else []
  }

  lemma {:induction false} SoleMatchCarriesTheBytes(files: seq<FileEntry>, table: string)
    ensures |Matches(files, table)| == 0 ==> BytesFor(files, table) == 0
    ensures |Matches(files, table)| == 1 ==> BytesFor(files, table) == Matches(files, table)[0].bytes
  {
    if files == [] {
    } else {
      SoleMatchCarriesTheBytes(files[..|files| - 1], table);
    }
  }

  function TableOrder(shards: seq<Shard>): seq<string> {
    if shards == [] then []
    else seq(|shards[0].files|, i requires 0 <= i < |shards[0].files| => shards[0].files[i].table)
  }

  /** Every shard has exactly one file for every table of the first shard. */
  predicate SameInventory(shards: seq<Shard>) {
    forall s, t :: s in shards && t in TableOrder(shards) ==> |Matches(s.files, t)| == 1
  }

  predicate InPlace(spec: Spec, shards: seq<Shard>) {
    forall i :: 0 <= i < |shards| ==> shards[i].shardId == i && shards[i].version == spec.version
  }

  lemma {:induction false} DistinctMatches(files: seq<FileEntry>, i: nat, j: nat)
    requires i < j < |files| && files[i].table == files[j].table
    ensures |Matches(files, files[i].table)| >= 2
  {
    var init := files[..|files| - 1];
    if j < |files| - 1 {
      DistinctMatches(init, i, j);
    } else {
      MatchesAtLeastOne(init, i);
    }
  }

  lemma {:induction false} MatchesAtLeastOne(files: seq<FileEntry>, i: nat)
    requires i < |files|
    ensures |Matches(files, files[i].table)| >= 1
  {
    if i == |files| - 1 {
    } else {
      MatchesAtLeastOne(files[..|files| - 1], i);
    }
  }

  /** A first shard that repeats a table is rejected, so an accepted order is duplicate-free. */
  lemma AcceptedOrderIsDistinct(shards: seq<Shard>)
    requires SameInventory(shards)
    ensures Distinct(TableOrder(shards))
  {
    var order := TableOrder(shards);
    forall i, j | 0 <= i < j < |order| ensures order[i] != order[j] {
      assert shards[0] in shards && order[i] in order;
      assert |Matches(shards[0].files, order[i])| == 1;
      if order[i] == order[j] {
        DistinctMatches(shards[0].files, i, j);
      }
    }
  }

  function RecordOf(s: Shard, table: string): FileRecord
    requires |Matches(s.files, table)| == 1
  {
    var f := Matches(s.files, table)[0];
    FileRecord(s.shardId, f.path, f.rows, f.bytes, f.sha256, f.md5)
  }

  function TableRows(shards: seq<Shard>, table: string): int {
    if shards == [] then 0
    else
      var m := Matches(shards[|shards| - 1].files, table);
      TableRows(shards[..|shards| - 1], table) + if |m| == 1 then m[0].rows else 0
  }

  function Schemas(shards: seq<Shard>, table: string): set<string> {
    if shards == [] then {}
    else
      var m := Matches(shards[|shards| - 1].files, table);
      Schemas(shards[..|shards| - 1], table) + if |m| == 1 then {m[0].schema} else {}
  }

  /** What the entry of one table says, stated against the shards themselves. */
  ghost predicate Summarizes(entry: TableEntry, shards: seq<Shard>, table: string)
  {
    && (forall s :: s in shards ==> |Matches(s.files, table)| == 1)
    && entry.rows == TableRows(shards, table)
    && entry.bytes == TableBytes(shards, table)
    && |entry.files| == |shards|
    && (forall i :: 0 <= i < |shards| ==> entry.files[i] == RecordOf(shards[i], table))
    && entry.schemas == Schemas(shards, table)
  }

  /** The entry with the one file of another shard. */
  function Extended(entry: TableEntry, s: Shard, table: string): TableEntry
    requires |Matches(s.files, table)| == 1
  {
    var f := Matches(s.files, table)[0];
    TableEntry(entry.rows + f.rows, entry.bytes + f.bytes, entry.schemas + {f.schema},
               entry.files + [RecordOf(s, table)])
  }

  lemma SumsGrow(shards: seq<Shard>, s: Shard, table: string)
    requires |Matches(s.files, table)| == 1
    ensures TableRows(shards + [s], table) == TableRows(shards, table) + Matches(s.files, table)[0].rows
    ensures TableBytes(shards + [s], table) == TableBytes(shards, table) + Matches(s.files, table)[0].bytes
    ensures Schemas(shards + [s], table) == Schemas(shards, table) + {Matches(s.files, table)[0].schema}
  {
    SoleMatchCarriesTheBytes(s.files, table);
    assert (shards + [s])[..|shards|] == shards;
  }

  lemma SummaryGrows(entry: TableEntry, shards: seq<Shard>, s: Shard, table: string)
    requires Summarizes(entry, shards, table) && |Matches(s.files, table)| == 1
    ensures Summarizes(Extended(entry, s, table), shards + [s], table)
  {
    SumsGrow(shards, s, table);
    var all, extended := shards + [s], Extended(entry, s, table);
    forall i | 0 <= i < |all| ensures extended.files[i] == RecordOf(all[i], table) {
      assert i < |shards| ==> all[i] == shards[i];
    }
  }

  method RebuildTable(shards: seq<Shard>, table: string) returns (r: Option<TableEntry>)
    ensures r.Some? <==> forall s :: s in shards ==> |Matches(s.files, table)| == 1
    ensures r.Some? ==> Summarizes(r.value, shards, table)
  {
    var entry := TableEntry(0, 0, {}, []);
    assert shards[..0] == [];
    for i := 0 to |shards|
      invariant Summarizes(entry, shards[..i], table)
    {
      var matches := Matches(shards[i].files, table);
      if |matches| != 1 {
        assert shards[i] in shards;
        return None;
      }
      SummaryGrows(entry, shards[..i], shards[i], table);
      assert shards[..i + 1] == shards[..i] + [shards[i]];
      entry := Extended(entry, shards[i], table);
    }
    assert shards[..|shards|] == shards;
    r := Some(entry);
  }

  function Sum(xs: seq<int>): int {
    if xs == [] then 0 else Sum(xs[..|xs| - 1]) + xs[|xs| - 1]
  }

  /** The logical transactions of each shard. */
  function Logicals(shards: seq<Shard>): (r: seq<int>)
    ensures |r| == |shards| && forall i :: 0 <= i < |r| ==> r[i] == shards[i].logical
  {
    seq(|shards|, i requires 0 <= i < |shards| => shards[i].logical)
  }

  /** The physical transactions of each shard. */
  function Physicals(shards: seq<Shard>): (r: seq<int>)
    ensures |r| == |shards| && forall i :: 0 <= i < |r| ==> r[i] == shards[i].physical
  {
    seq(|shards|, i requires 0 <= i < |shards| => shards[i].physical)
  }

  lemma NothingCounted()
    ensures TotalBytes([]) == 0 && Sum(Logicals([])) == 0 && Sum(Physicals([])) == 0
  {
  }

  lemma CountsGrow(shards: seq<Shard>, i: nat)
    requires i < |shards|
    ensures TotalBytes(shards[..i + 1]) == TotalBytes(shards[..i]) + Bytes(shards[i].files)
    ensures Sum(Logicals(shards[..i + 1])) == Sum(Logicals(shards[..i])) + shards[i].logical
    ensures Sum(Physicals(shards[..i + 1])) == Sum(Physicals(shards[..i])) + shards[i].physical
  {
    assert shards[..i + 1][..i] == shards[..i];
    assert Logicals(shards[..i + 1])[..i] == Logicals(shards[..i]);
    assert Physicals(shards[..i + 1])[..i] == Physicals(shards[..i]);
  }

  /** The fraud scenario counters of the shards. */
  function Scenarios(shards: seq<Shard>): (r: seq<map<string, int>>)
    ensures |r| == |shards| && forall i :: 0 <= i < |r| ==> r[i] == shards[i].scenarios
  {
    seq(|shards|, i requires 0 <= i < |shards| => shards[i].scenarios)
  }

  /** The counters of the manifest are those of all shards, by name and in total. */
  ghost predicate CountsFraud(shards: seq<Shard>, h: Header) {
    && h.scenarios == ScenarioCounts.Counts(Scenarios(shards))
    && h.fraudRows == ScenarioCounts.TotalOfReports(Scenarios(shards))
  }

  function FraudLabelRows(tables: map<string, TableEntry>): int {
    if FRAUD_LABELS in tables then tables[FRAUD_LABELS].rows else 0
  }

  /** The rebuilt manifest, stated against the shards themselves. */
  ghost predicate IsRebuilt(spec: Spec, shards: seq<Shard>, m: Manifest) {
    && SameInventory(shards) && InPlace(spec, shards)
    && m.totalBytes == TotalBytes(shards)
    && (forall t :: t in m.tables <==> t in TableOrder(shards))
    && (forall t :: t in m.tables ==> Summarizes(m.tables[t], shards, t))
    && CountsFraud(shards, m.header)
    && m.header == Header(spec.version, if shards == [] then "" else shards[0].planDigest, |shards|,
                          Sum(Logicals(shards)), Sum(Physicals(shards)), FraudLabelRows(m.tables),
                          m.header.fraudRows, m.header.scenarios)
  }

  /** The tables of the first shard, each summed over all shards. */
  method RebuildTables(shards: seq<Shard>) returns (r: Option<map<string, TableEntry>>)
    ensures r.Some? <==> SameInventory(shards)
    ensures r.Some? ==> forall t :: t in r.value <==> t in TableOrder(shards)
    ensures r.Some? ==> forall t :: t in r.value ==> Summarizes(r.value[t], shards, t)
  {
    var order := TableOrder(shards);
    var tables: map<string, TableEntry> := map[];
    for k := 0 to |order|
      invariant forall t :: t in tables <==> t in order[..k]
      invariant forall t :: t in tables ==> Summarizes(tables[t], shards, t)
    {
      var entry := RebuildTable(shards, order[k]);
      if entry.None? {
        var s :| s in shards && |Matches(s.files, order[k])| != 1;
        assert s in shards && order[k] in order;
        return None;
      }
      assert order[..k + 1] == order[..k] + [order[k]];
      tables := tables[order[k] := entry.value];
    }
    assert order[..|order|] == order;
    r := Some(tables);
  }

  /** Total bytes and transaction counts of shards that are in place. */
  method SumShards(spec: Spec, shards: seq<Shard>) returns (r: Option<(int, int, int)>)
    ensures r.Some? <==> InPlace(spec, shards)
    ensures r.Some? ==> r.value == (TotalBytes(shards), Sum(Logicals(shards)), Sum(Physicals(shards)))
  {
    hide Sum, TotalBytes, Bytes;
    var total, logical, physical := 0, 0, 0;
    NothingCounted();
    assert shards[..0] == [];
    for i := 0 to |shards|
      invariant InPlace(spec, shards[..i])
      invariant total == TotalBytes(shards[..i])
      invariant logical == Sum(Logicals(shards[..i])) && physical == Sum(Physicals(shards[..i]))
    {
      if shards[i].shardId != i || shards[i].version != spec.version {
        return None;
      }
      var bytes := SumFiles(shards[i].files);
      total := total + bytes;
      CountsGrow(shards, i);
      logical, physical := logical + shards[i].logical, physical + shards[i].physical;
    }
    assert shards[..|shards|] == shards;
    r := Some((total, logical, physical));
  }

  method CountFraud(shards: seq<Shard>) returns (counts: map<string, int>, rows: int)
    ensures counts == ScenarioCounts.Counts(Scenarios(shards))
    ensures rows == ScenarioCounts.TotalOfReports(Scenarios(shards))
  {
    counts := ScenarioCounts.Counts(Scenarios(shards));
    rows := ScenarioCounts.SumValues(counts);
    ScenarioCounts.CountsConserve(Scenarios(shards));
  }

  /** The record of a table and a shard says what the shard's own file of that table says. */
  ghost predicate ListsFiles(m: Manifest, shards: seq<Shard>) {
    && (forall t :: t in m.tables ==> |m.tables[t].files| == |shards|)
    && forall t, i, f :: t in m.tables && 0 <= i < |shards| && f in shards[i].files && f.table == t ==>
         && m.tables[t].files[i] == FileRecord(shards[i].shardId, f.path, f.rows, f.bytes, f.sha256, f.md5)
         && f.schema in m.tables[t].schemas
  }

  function RowsOf(files: seq<FileRecord>): (r: seq<int>)
    ensures |r| == |files| && forall i :: 0 <= i < |r| ==> r[i] == files[i].rows
  {
    seq(|files|, i requires 0 <= i < |files| => files[i].rows)
  }

  function BytesOf(files: seq<FileRecord>): (r: seq<int>)
    ensures |r| == |files| && forall i :: 0 <= i < |r| ==> r[i] == files[i].bytes
  {
    seq(|files|, i requires 0 <= i < |files| => files[i].bytes)
  }

  /** The table adds up its records. */
  predicate AddsUp(entry: TableEntry) {
    entry.rows == Sum(RowsOf(entry.files)) && entry.bytes == Sum(BytesOf(entry.files))
  }

  lemma {:induction false} SoleMatchIsTheFile(files: seq<FileEntry>, f: FileEntry)
    requires f in files && |Matches(files, f.table)| == 1
    ensures Matches(files, f.table)[0] == f
  {
    var init, last := files[..|files| - 1], files[|files| - 1];
    assert files == init + [last];
    if f in init {
      var i :| 0 <= i < |init| && init[i] == f;
      MatchesAtLeastOne(init, i);
      SoleMatchIsTheFile(init, f);
    } else {
      assert f == last;
    }
  }

  lemma {:induction false} SchemaIsListed(shards: seq<Shard>, table: string, i: nat)
    requires i < |shards| && |Matches(shards[i].files, table)| == 1
    ensures Matches(shards[i].files, table)[0].schema in Schemas(shards, table)
  {
    if i == |shards| - 1 {
    } else {
      SchemaIsListed(shards[..|shards| - 1], table, i);
    }
  }

  lemma FileIsListed(entry: TableEntry, shards: seq<Shard>, t: string, i: nat, f: FileEntry)
    requires Summarizes(entry, shards, t) && i < |shards| && f in shards[i].files && f.table == t
    ensures entry.files[i] == FileRecord(shards[i].shardId, f.path, f.rows, f.bytes, f.sha256, f.md5)
    ensures f.schema in entry.schemas
  {
    assert shards[i] in shards;
    SoleMatchIsTheFile(shards[i].files, f);
    SchemaIsListed(shards, t, i);
  }

  lemma RebuiltListsFiles(spec: Spec, shards: seq<Shard>, m: Manifest)
    requires IsRebuilt(spec, shards, m)
    ensures ListsFiles(m, shards)
  {
    hide SameInventory, InPlace, CountsFraud, Sum, TotalBytes, FraudLabelRows, RecordOf, Matches;
    hide Schemas, TableRows, TableBytes;
    forall t, i, f | t in m.tables && 0 <= i < |shards| && f in shards[i].files && f.table == t
      ensures m.tables[t].files[i] == FileRecord(shards[i].shardId, f.path, f.rows, f.bytes, f.sha256, f.md5)
      ensures f.schema in m.tables[t].schemas
    {
      FileIsListed(m.tables[t], shards, t, i, f);
    }
  }

  lemma {:induction false} RecordsAddUp(shards: seq<Shard>, files: seq<FileRecord>, table: string)
    requires |files| == |shards|
    requires forall i :: 0 <= i < |shards| ==>
               |Matches(shards[i].files, table)| == 1 && files[i] == RecordOf(shards[i], table)
    ensures TableRows(shards, table) == Sum(RowsOf(files))
    ensures TableBytes(shards, table) == Sum(BytesOf(files))
    decreases |shards|
  {
    if shards == [] {
    } else {
      var k := |shards| - 1;
      RecordsAddUp(shards[..k], files[..k], table);
      SoleMatchCarriesTheBytes(shards[k].files, table);
      assert RowsOf(files)[..k] == RowsOf(files[..k]) && BytesOf(files)[..k] == BytesOf(files[..k]);
    }
  }

  lemma RebuiltAddsUp(spec: Spec, shards: seq<Shard>, m: Manifest, t: string)
    requires IsRebuilt(spec, shards, m) && t in m.tables
    ensures AddsUp(m.tables[t])
  {
    assert Summarizes(m.tables[t], shards, t);
    forall i | 0 <= i < |shards| ensures |Matches(shards[i].files, t)| == 1 {
      assert shards[i] in shards;
    }
    RecordsAddUp(shards, m.tables[t].files, t);
  }

  method Rebuild(spec: Spec, shards: seq<Shard>) returns (r: Option<Manifest>)
    requires |shards| == spec.shardCount
    ensures r.Some? <==> InPlace(spec, shards) && SameInventory(shards)
    ensures r.Some? ==> IsRebuilt(spec, shards, r.value)
    ensures r.Some? ==> ListsFiles(r.value, shards) && forall t :: t in r.value.tables ==> AddsUp(r.value.tables[t])
  {
    hide Sum, TotalBytes, Summarizes, ListsFiles, AddsUp, SameInventory, InPlace, Matches, TableOrder, FraudLabelRows;
    var sums := SumShards(spec, shards);
    if sums.None? {
      return None;
    }
    var tables := RebuildTables(shards);
    if tables.None? {
      return None;
    }
    var scenarios, fraudRows := CountFraud(shards);
    r := Some(Manifest(
      Header(spec.version, if shards == [] then "" else shards[0].planDigest, |shards|, sums.value.1, sums.value.2,
             FraudLabelRows(tables.value), fraudRows, scenarios),
      sums.value.0, tables.value));
    RebuiltListsFiles(spec, shards, r.value);
    forall t | t in tables.value {
      RebuiltAddsUp(spec, shards, r.value, t);
    }
  }

  method SumFiles(files: seq<FileEntry>) returns (bytes: int)
    ensures bytes == Bytes(files)
  {
    bytes := 0;
    assert files[..0] == [];
    for i := 0 to |files|
      invariant bytes == Bytes(files[..i])
    {
      assert files[..i + 1][..i] == files[..i];
      bytes := bytes + files[i].bytes;
    }
    assert files[..|files|] == files;
  }

  // ---------------------------------------------------------------------------
  // Conservation
  // ---------------------------------------------------------------------------

  function BytesOfTables(tables: map<string, TableEntry>, order: seq<string>): int
    requires forall t :: t in order ==> t in tables
  {
    if order == [] then 0 else tables[order[0]].bytes + BytesOfTables(tables, order[1..])
  }

  lemma {:induction false} TablesSumToListed(tables: map<string, TableEntry>, shards: seq<Shard>, order: seq<string>)
    requires forall t :: t in order ==> t in tables && tables[t].bytes == TableBytes(shards, t)
    ensures BytesOfTables(tables, order) == ListedBytes(shards, order)
  {
    if order == [] {
    } else {
      TablesSumToListed(tables, shards, order[1..]);
    }
  }

  /** `total_bytes` of a rebuilt manifest is the sum of its tables' `bytes` exactly when the files
      that the first shard does not list add up to nothing. */
  lemma TotalEqualsSumOfTables(spec: Spec, shards: seq<Shard>, m: Manifest)
    requires IsRebuilt(spec, shards, m)
    ensures var order := TableOrder(shards);
            && m.totalBytes == BytesOfTables(m.tables, order) + TotalUnlisted(shards, order)
            && (m.totalBytes == BytesOfTables(m.tables, order) <==> TotalUnlisted(shards, order) == 0)
            && ((forall s, f :: s in shards && f in s.files ==> f.table in order) ==>
                  m.totalBytes == BytesOfTables(m.tables, order))
  {
    var order := TableOrder(shards);
    AcceptedOrderIsDistinct(shards);
    TotalSplitsByTable(shards, order);
    TablesSumToListed(m.tables, shards, order);
    if forall s, f :: s in shards && f in s.files ==> f.table in order {
      NothingUnlisted(shards, order);
    }
  }

  // ---------------------------------------------------------------------------
  // Substituting the planned files
  // ---------------------------------------------------------------------------

  datatype Staged = Staged(bytes: int, sha256: string, md5: string)

  function Replace(f: FileEntry, table: string, staged: Staged): FileEntry {
    if f.table == table then f.(bytes := staged.bytes, sha256 := staged.sha256, md5 := staged.md5) else f
  }

  function ReplaceAll(files: seq<FileEntry>, table: string, staged: Staged): seq<FileEntry> {
    seq(|files|, i requires 0 <= i < |files| => Replace(files[i], table, staged))
  }

  function Remediate(s: Shard, table: string, plan: map<int, Staged>): Shard {
    if s.shardId in plan then s.(files := ReplaceAll(s.files, table, plan[s.shardId])) else s
  }

  function RemediateAll(shards: seq<Shard>, table: string, plan: map<int, Staged>): seq<Shard> {
    seq(|shards|, i requires 0 <= i < |shards| => Remediate(shards[i], table, plan))
  }

  /** The projected gain: staged size minus current size, over the planned shards. */
  function Gain(shards: seq<Shard>, table: string, plan: map<int, Staged>): int {
    if shards == [] then 0
    else
      var last := shards[|shards| - 1];
      Gain(shards[..|shards| - 1], table, plan) +
      if last.shardId in plan then plan[last.shardId].bytes - BytesFor(last.files, table) else 0
  }

  lemma {:induction false} ReplacedMatches(files: seq<FileEntry>, table: string, staged: Staged, t: string)
    ensures Matches(ReplaceAll(files, table, staged), t) == ReplaceAll(Matches(files, t), table, staged)
  {
    if files == [] {
    } else {
      var init, last := files[..|files| - 1], files[|files| - 1];
      ReplacedMatches(init, table, staged, t);
      assert ReplaceAll(files, table, staged)[..|files| - 1] == ReplaceAll(init, table, staged);
      assert ReplaceAll(Matches(init, t) + [last], table, staged)
          == ReplaceAll(Matches(init, t), table, staged) + [Replace(last, table, staged)];
    }
  }

  lemma {:induction false} ReplacedBytes(files: seq<FileEntry>, table: string, staged: Staged)
    requires |Matches(files, table)| <= 1
    ensures Bytes(ReplaceAll(files, table, staged)) ==
            Bytes(files) - BytesFor(files, table) + if |Matches(files, table)| == 1 then staged.bytes else 0
  {
    if files == [] {
    } else {
      ReplacedBytes(files[..|files| - 1], table, staged);
      assert ReplaceAll(files, table, staged)[..|files| - 1] == ReplaceAll(files[..|files| - 1], table, staged);
    }
  }

  /** Substituting the planned files changes the total by exactly the projected gain. */
  lemma {:induction false} SubstitutionAddsTheGain(shards: seq<Shard>, table: string, plan: map<int, Staged>)
    requires forall s :: s in shards && s.shardId in plan ==> |Matches(s.files, table)| == 1
    ensures TotalBytes(RemediateAll(shards, table, plan)) == TotalBytes(shards) + Gain(shards, table, plan)
  {
    if shards == [] {
    } else {
      var init, last := shards[..|shards| - 1], shards[|shards| - 1];
      SubstitutionAddsTheGain(init, table, plan);
      assert RemediateAll(shards, table, plan)[..|shards| - 1] == RemediateAll(init, table, plan);
      if last.shardId in plan {
        ReplacedBytes(last.files, table, plan[last.shardId]);
      }
    }
  }

  // ---------------------------------------------------------------------------
  // Accepting a rebuilt manifest
  // ---------------------------------------------------------------------------

  predicate MeetsSpec(spec: Spec, m: Manifest) {
    && m.header.version == spec.version && m.header.shardCount == spec.shardCount
    && m.header.logical == spec.logical && m.header.physical == spec.physical
    && m.header.fraudLabelRows == spec.fraudLabelRows && m.header.fraudRows == spec.fraudRows && spec.table in m.tables
  }

  /** The only change allowed in a file record: size and checksums of a planned file. */
  predicate AllowedChange(spec: Spec, table: string, a: FileRecord, b: FileRecord) {
    && a.shardId == b.shardId && a.path == b.path && a.rows == b.rows
    && (!(table == spec.table && a.shardId in spec.selectedShards) ==> a == b)
  }

  predicate AllowedTable(spec: Spec, table: string, a: TableEntry, b: TableEntry) {
    && a.rows == b.rows && a.schemas == b.schemas && |a.files| == |b.files|
    && forall i :: 0 <= i < |a.files| ==> AllowedChange(spec, table, a.files[i], b.files[i])
  }

  predicate Acceptable(spec: Spec, original: Manifest, rebuilt: Manifest, projectedTotal: int) {
    && MeetsSpec(spec, rebuilt)
    && rebuilt.header == original.header
    && rebuilt.totalBytes == projectedTotal
    && rebuilt.tables.Keys == original.tables.Keys
    && forall t :: t in original.tables ==> AllowedTable(spec, t, original.tables[t], rebuilt.tables[t])
  }

  method ValidateTable(spec: Spec, table: string, a: TableEntry, b: TableEntry) returns (accepted: bool)
    ensures accepted <==> AllowedTable(spec, table, a, b)
  {
    if a.rows != b.rows || a.schemas != b.schemas || |a.files| != |b.files| {
      return false;
    }
    for i := 0 to |a.files|
      invariant forall j :: 0 <= j < i ==> AllowedChange(spec, table, a.files[j], b.files[j])
    {
      var before, after := a.files[i], b.files[i];
      if before.shardId != after.shardId || before.path != after.path || before.rows != after.rows {
        return false;
      }
      var selected := table == spec.table && before.shardId in spec.selectedShards;
      if !selected && (before.bytes != after.bytes || before.sha256 != after.sha256 || before.md5 != after.md5) {
        return false;
      }
    }
    return true;
  }

  method Validate(spec: Spec, original: Manifest, rebuilt: Manifest, projectedTotal: int) returns (accepted: bool)
    ensures accepted <==> Acceptable(spec, original, rebuilt, projectedTotal)
    // Field by field.
    ensures var h := rebuilt.header;
            accepted ==>
              && h == original.header && h.version == spec.version && h.shardCount == spec.shardCount
              && h.logical == spec.logical && h.physical == spec.physical
              && h.fraudLabelRows == spec.fraudLabelRows && h.fraudRows == spec.fraudRows
              && rebuilt.totalBytes == projectedTotal && rebuilt.tables.Keys == original.tables.Keys
              && spec.table in rebuilt.tables
    ensures accepted ==>
              forall t, i :: t in original.tables && 0 <= i < |original.tables[t].files| ==>
                && |rebuilt.tables[t].files| == |original.tables[t].files|
                && var a, b := original.tables[t].files[i], rebuilt.tables[t].files[i];
                   && a.shardId == b.shardId && a.path == b.path && a.rows == b.rows
                   && (t != spec.table || a.shardId !in spec.selectedShards ==>
                         a.bytes == b.bytes && a.sha256 == b.sha256 && a.md5 == b.md5)
  {
    if !MeetsSpec(spec, rebuilt) || rebuilt.header != original.header || rebuilt.totalBytes != projectedTotal
       || rebuilt.tables.Keys != original.tables.Keys {
      return false;
    }
    var names := original.tables.Keys;
    while names != {}
      invariant names <= original.tables.Keys
      invariant forall t :: t in original.tables && t !in names ==>
                              AllowedTable(spec, t, original.tables[t], rebuilt.tables[t])
      decreases |names|
    {
      var t :| t in names;
      names := names - {t};
      var allowed := ValidateTable(spec, t, original.tables[t], rebuilt.tables[t]);
      if !allowed {
        return false;
      }
    }
    return true;
  }

  lemma {:induction false} RemediationKeepsRows(shards: seq<Shard>, table: string, plan: map<int, Staged>, t: string)
    ensures TableRows(RemediateAll(shards, table, plan), t) == TableRows(shards, t)
  {
    if shards == [] {
    } else {
      var init, last := shards[..|shards| - 1], shards[|shards| - 1];
      RemediationKeepsRows(init, table, plan, t);
      assert RemediateAll(shards, table, plan)[..|shards| - 1] == RemediateAll(init, table, plan);
      if last.shardId in plan {
        ReplacedMatches(last.files, table, plan[last.shardId], t);
      }
    }
  }

  lemma RemediationKeepsTransactions(shards: seq<Shard>, table: string, plan: map<int, Staged>)
    ensures Logicals(RemediateAll(shards, table, plan)) == Logicals(shards)
    ensures Physicals(RemediateAll(shards, table, plan)) == Physicals(shards)
  {
  }

  lemma {:induction false} MatchesHaveTheTable(files: seq<FileEntry>, t: string)
    ensures forall f :: f in Matches(files, t) ==> f.table == t
  {
    if files == [] {
    } else {
      MatchesHaveTheTable(files[..|files| - 1], t);
    }
  }

  /** Remediation changes the record of a shard only where it is planned to. */
  lemma RemediatedRecord(spec: Spec, s: Shard, plan: map<int, Staged>, t: string)
    requires plan.Keys == spec.selectedShards && |Matches(s.files, t)| == 1
    ensures var s' := Remediate(s, spec.table, plan);
            && |Matches(s'.files, t)| == 1 && Matches(s'.files, t)[0].schema == Matches(s.files, t)[0].schema
            && AllowedChange(spec, t, RecordOf(s, t), RecordOf(s', t))
            && (s.shardId in plan && t == spec.table ==>
                  var to := RecordOf(s', t);
                  Staged(to.bytes, to.sha256, to.md5) == plan[s.shardId])
  {
    MatchesHaveTheTable(s.files, t);
    assert Matches(s.files, t)[0] in Matches(s.files, t);
    if s.shardId in plan {
      ReplacedMatches(s.files, spec.table, plan[s.shardId], t);
    }
  }

  lemma RemediationKeepsInventory(spec: Spec, shards: seq<Shard>, plan: map<int, Staged>)
    requires SameInventory(shards) && InPlace(spec, shards)
    ensures var shards' := RemediateAll(shards, spec.table, plan);
            TableOrder(shards') == TableOrder(shards) && SameInventory(shards') && InPlace(spec, shards')
  {
    var shards' := RemediateAll(shards, spec.table, plan);
    assert TableOrder(shards') == TableOrder(shards);
    forall s', t | s' in shards' && t in TableOrder(shards') ensures |Matches(s'.files, t)| == 1 {
      var i :| 0 <= i < |shards'| && shards'[i] == s';
      assert shards[i] in shards;
      if shards[i].shardId in plan {
        ReplacedMatches(shards[i].files, spec.table, plan[shards[i].shardId], t);
      }
    }
  }

  lemma RemediatedTableIsAllowed(
    spec: Spec, shards: seq<Shard>, plan: map<int, Staged>, t: string, a: TableEntry, b: TableEntry)
    requires plan.Keys == spec.selectedShards
    requires Summarizes(a, shards, t) && Summarizes(b, RemediateAll(shards, spec.table, plan), t)
    ensures AllowedTable(spec, t, a, b)
  {
    var shards' := RemediateAll(shards, spec.table, plan);
    RemediationKeepsRows(shards, spec.table, plan, t);
    forall i | 0 <= i < |shards|
      ensures AllowedChange(spec, t, a.files[i], b.files[i])
      ensures shards[i] in shards && shards'[i] in shards'
      ensures Matches(shards'[i].files, t)[0].schema == Matches(shards[i].files, t)[0].schema
    {
      assert shards[i] in shards && shards'[i] in shards';
      RemediatedRecord(spec, shards[i], plan, t);
    }
    SchemasAgree(shards, shards', t);
  }

  lemma {:induction false} SchemasAgree(shards: seq<Shard>, shards': seq<Shard>, t: string)
    requires |shards| == |shards'|
    requires forall i :: 0 <= i < |shards| ==>
               && |Matches(shards[i].files, t)| == 1 && |Matches(shards'[i].files, t)| == 1
               && Matches(shards'[i].files, t)[0].schema == Matches(shards[i].files, t)[0].schema
    ensures Schemas(shards, t) == Schemas(shards', t)
  {
    if shards == [] {
    } else {
      var k := |shards| - 1;
      SchemasAgree(shards[..k], shards'[..k], t);
    }
  }

  lemma RemediatedHeaderIsUnchanged(
    spec: Spec, shards: seq<Shard>, plan: map<int, Staged>, original: Manifest, rebuilt: Manifest)
    requires IsRebuilt(spec, shards, original) && IsRebuilt(spec, RemediateAll(shards, spec.table, plan), rebuilt)
    ensures rebuilt.header == original.header
  {
    var shards' := RemediateAll(shards, spec.table, plan);
    RemediationKeepsInventory(spec, shards, plan);
    RemediationKeepsTransactions(shards, spec.table, plan);
    RemediationKeepsRows(shards, spec.table, plan, FRAUD_LABELS);
    FraudLabelsComeFromShards(spec, shards, original);
    FraudLabelsComeFromShards(spec, shards', rebuilt);
    RemediationKeepsScenarios(shards, spec.table, plan);
    assert shards != [] ==> shards'[0].planDigest == shards[0].planDigest;
  }

  lemma RemediationKeepsScenarios(shards: seq<Shard>, table: string, plan: map<int, Staged>)
    ensures Scenarios(RemediateAll(shards, table, plan)) == Scenarios(shards)
  {
  }

  lemma FraudLabelsComeFromShards(spec: Spec, shards: seq<Shard>, m: Manifest)
    requires IsRebuilt(spec, shards, m)
    ensures m.header.fraudLabelRows
            == if FRAUD_LABELS in TableOrder(shards) then TableRows(shards, FRAUD_LABELS) else 0
  {
    assert FRAUD_LABELS in m.tables ==> Summarizes(m.tables[FRAUD_LABELS], shards, FRAUD_LABELS);
  }

  lemma RemediatedTablesAreUnchanged(
    spec: Spec, shards: seq<Shard>, plan: map<int, Staged>, original: Manifest, rebuilt: Manifest)
    requires IsRebuilt(spec, shards, original) && IsRebuilt(spec, RemediateAll(shards, spec.table, plan), rebuilt)
    ensures rebuilt.tables.Keys == original.tables.Keys
  {
    RemediationKeepsInventory(spec, shards, plan);
  }

  lemma RemediatedTotalIsProjected(spec: Spec, shards: seq<Shard>, plan: map<int, Staged>)
    requires SameInventory(shards) && spec.table in TableOrder(shards)
    ensures TotalBytes(RemediateAll(shards, spec.table, plan)) == TotalBytes(shards) + Gain(shards, spec.table, plan)
  {
    SubstitutionAddsTheGain(shards, spec.table, plan);
  }

  /** The rebuild of a correctly remediated dataset is accepted, at the projected total. */
  lemma RemediatedRebuildIsAccepted(
    spec: Spec, shards: seq<Shard>, plan: map<int, Staged>, original: Manifest, rebuilt: Manifest)
    requires plan.Keys == spec.selectedShards && spec.table in TableOrder(shards)
    requires IsRebuilt(spec, shards, original) && MeetsSpec(spec, original)
    requires IsRebuilt(spec, RemediateAll(shards, spec.table, plan), rebuilt)
    ensures Acceptable(spec, original, rebuilt, original.totalBytes + Gain(shards, spec.table, plan))
  {
    RemediatedHeaderIsUnchanged(spec, shards, plan, original, rebuilt);
    RemediatedTablesAreUnchanged(spec, shards, plan, original, rebuilt);
    RemediatedTotalIsProjected(spec, shards, plan);
    forall t | t in original.tables ensures AllowedTable(spec, t, original.tables[t], rebuilt.tables[t]) {
      RemediatedTableIsAllowed(spec, shards, plan, t, original.tables[t], rebuilt.tables[t]);
    }
  }

  // ---------------------------------------------------------------------------
  // What an accepted rebuild says about the shards
  // ---------------------------------------------------------------------------

  /** How much the selected files have grown. */
  function SelectedChange(shards: seq<Shard>, shards': seq<Shard>, table: string, selected: set<int>): int
    requires |shards| == |shards'|
  {
    if shards == [] then 0
    else
      var k := |shards| - 1;
      SelectedChange(shards[..k], shards'[..k], table, selected) +
      if shards[k].shardId in selected then BytesFor(shards'[k].files, table) - BytesFor(shards[k].files, table) else 0
  }

  lemma AcceptedRecord(spec: Spec, shards: seq<Shard>, shards': seq<Shard>, original: Manifest, rebuilt: Manifest,
                       projectedTotal: int, t: string, i: nat)
    requires IsRebuilt(spec, shards, original) && IsRebuilt(spec, shards', rebuilt)
    requires Acceptable(spec, original, rebuilt, projectedTotal) && t in TableOrder(shards) && i < |shards|
    ensures |shards'| == |shards|
    ensures |Matches(shards[i].files, t)| == 1 && |Matches(shards'[i].files, t)| == 1
    ensures AllowedChange(spec, t, RecordOf(shards[i], t), RecordOf(shards'[i], t))
  {
    assert Summarizes(original.tables[t], shards, t) && Summarizes(rebuilt.tables[t], shards', t);
    assert AllowedTable(spec, t, original.tables[t], rebuilt.tables[t]);
    assert shards[i] in shards && shards'[i] in shards';
  }

  /** The bytes of a table change by those of its selected files, if it is the selected table. */
  lemma {:induction false} TableChange(shards: seq<Shard>, shards': seq<Shard>, t: string, spec: Spec)
    requires |shards| == |shards'|
    requires forall i :: 0 <= i < |shards| && !(t == spec.table && shards[i].shardId in spec.selectedShards) ==>
                           BytesFor(shards'[i].files, t) == BytesFor(shards[i].files, t)
    ensures TableBytes(shards', t)
            == TableBytes(shards, t)
               + if t == spec.table then SelectedChange(shards, shards', t, spec.selectedShards) else 0
  {
    if shards == [] {
    } else {
      var k := |shards| - 1;
      TableChange(shards[..k], shards'[..k], t, spec);
    }
  }

  /** Over the listed tables, only the selected one counts. */
  lemma {:induction false} ListedChange(
    shards: seq<Shard>, shards': seq<Shard>, order: seq<string>, table: string, change: int)
    requires Distinct(order)
    requires forall t :: t in order ==>
               TableBytes(shards', t) == TableBytes(shards, t) + if t == table then change else 0
    ensures ListedBytes(shards', order) == ListedBytes(shards, order) + if table in order then change else 0
  {
    if order == [] {
    } else {
      assert order == [order[0]] + order[1..] && order[0] !in order[1..];
      ListedChange(shards, shards', order[1..], table, change);
    }
  }

  lemma AcceptedBytes(spec: Spec, shards: seq<Shard>, shards': seq<Shard>, original: Manifest, rebuilt: Manifest,
                      projectedTotal: int, t: string)
    requires IsRebuilt(spec, shards, original) && IsRebuilt(spec, shards', rebuilt) && |shards'| == |shards|
    requires Acceptable(spec, original, rebuilt, projectedTotal) && t in TableOrder(shards)
    ensures TableBytes(shards', t)
            == TableBytes(shards, t)
               + if t == spec.table then SelectedChange(shards, shards', t, spec.selectedShards) else 0
  {
    forall i | 0 <= i < |shards| && !(t == spec.table && shards[i].shardId in spec.selectedShards)
      ensures BytesFor(shards'[i].files, t) == BytesFor(shards[i].files, t)
    {
      AcceptedRecord(spec, shards, shards', original, rebuilt, projectedTotal, t, i);
      SoleMatchCarriesTheBytes(shards[i].files, t);
      SoleMatchCarriesTheBytes(shards'[i].files, t);
    }
    TableChange(shards, shards', t, spec);
  }

  lemma AcceptedTotals(
    spec: Spec, shards: seq<Shard>, shards': seq<Shard>, original: Manifest, rebuilt: Manifest, projectedTotal: int)
    requires IsRebuilt(spec, shards, original) && IsRebuilt(spec, shards', rebuilt) && |shards'| == |shards|
    requires Acceptable(spec, original, rebuilt, projectedTotal)
    ensures var order := TableOrder(shards);
            projectedTotal - original.totalBytes
            == SelectedChange(shards, shards', spec.table, spec.selectedShards)
               + TotalUnlisted(shards', order) - TotalUnlisted(shards, order)
  {
    var order := TableOrder(shards);
    forall t | t in order {
      AcceptedBytes(spec, shards, shards', original, rebuilt, projectedTotal, t);
    }
    AcceptedOrderIsDistinct(shards);
    ListedChange(shards, shards', order, spec.table, SelectedChange(shards, shards', spec.table, spec.selectedShards));
    TotalSplitsByTable(shards, order);
    TotalSplitsByTable(shards', order);
  }

  /** Two dataset states whose manifests are an original and an accepted rebuild: outside the
      selected shards of the selected table every file record is the same, inside only sizes and
      checksums differ, and the selected files have grown by the projected total minus the
      original one, up to files that the first shard does not list. */
  lemma AcceptedRebuildChangesOnlySelection(
    spec: Spec, shards: seq<Shard>, shards': seq<Shard>, original: Manifest, rebuilt: Manifest, projectedTotal: int)
    requires IsRebuilt(spec, shards, original) && IsRebuilt(spec, shards', rebuilt)
    requires Acceptable(spec, original, rebuilt, projectedTotal)
    ensures |shards'| == |shards|
    ensures forall t, i :: t in TableOrder(shards) && 0 <= i < |shards| ==>
              && |Matches(shards[i].files, t)| == 1 && |Matches(shards'[i].files, t)| == 1
              && AllowedChange(spec, t, RecordOf(shards[i], t), RecordOf(shards'[i], t))
    ensures var order := TableOrder(shards);
            projectedTotal - original.totalBytes
            == SelectedChange(shards, shards', spec.table, spec.selectedShards)
               + TotalUnlisted(shards', order) - TotalUnlisted(shards, order)
  {
    var order := TableOrder(shards);
    assert |shards'| == |shards|;
    forall t, i | t in order && 0 <= i < |shards|
      ensures && |Matches(shards[i].files, t)| == 1 && |Matches(shards'[i].files, t)| == 1
              && AllowedChange(spec, t, RecordOf(shards[i], t), RecordOf(shards'[i], t))
    {
      AcceptedRecord(spec, shards, shards', original, rebuilt, projectedTotal, t, i);
    }
    AcceptedTotals(spec, shards, shards', original, rebuilt, projectedTotal);
  }

  /** With a common inventory nothing is unlisted, and the selected files account for it all. */
  lemma AcceptedGrowthIsSelected(
    spec: Spec, shards: seq<Shard>, shards': seq<Shard>, original: Manifest, rebuilt: Manifest, projectedTotal: int)
    requires IsRebuilt(spec, shards, original) && IsRebuilt(spec, shards', rebuilt)
    requires Acceptable(spec, original, rebuilt, projectedTotal)
    requires forall s, f :: (s in shards || s in shards') && f in s.files ==> f.table in TableOrder(shards)
    ensures |shards'| == |shards|
    ensures SelectedChange(shards, shards', spec.table, spec.selectedShards) == projectedTotal - original.totalBytes
  {
    AcceptedRebuildChangesOnlySelection(spec, shards, shards', original, rebuilt, projectedTotal);
    NothingUnlisted(shards, TableOrder(shards));
    NothingUnlisted(shards', TableOrder(shards));
  }

  // ---------------------------------------------------------------------------
  // Shards whose total is not the sum of the tables
  // ---------------------------------------------------------------------------

  /** A file of the second shard, of a table that the first shard does not list. */
  function UnlistedExample(bytes: int): seq<Shard> {
    var listed := FileEntry("users", "users.parquet", 1, 10, "a", "b", "c");
    var unlisted := FileEntry("devices", "devices.parquet", 1, bytes, "d", "e", "f");
    [Shard(0, "v1", "plan", 1, 1, map[], [listed]), Shard(1, "v1", "plan", 1, 1, map[], [listed, unlisted])]
  }

  const EXAMPLE_SPEC := Spec("v1", 2, 2, 2, 0, 0, "users", {})

  /** The total of their manifest exceeds the sum of the tables by the unlisted bytes: not at
      all if there are none. */
  lemma UnlistedFileBreaksTheSum(bytes: int, m: Manifest)
    requires IsRebuilt(EXAMPLE_SPEC, UnlistedExample(bytes), m)
    ensures m.totalBytes == BytesOfTables(m.tables, TableOrder(UnlistedExample(bytes))) + bytes
  {
    assert TableOrder(UnlistedExample(bytes)) == ["users"];
    UnlistedBytesOfExample(bytes);
    TotalEqualsSumOfTables(EXAMPLE_SPEC, UnlistedExample(bytes), m);
  }

  /** There is such a manifest: the shards are in place with a common inventory. */
  method RebuildUnlisted(bytes: int) returns (m: Manifest)
    ensures IsRebuilt(EXAMPLE_SPEC, UnlistedExample(bytes), m)
  {
    var shards := UnlistedExample(bytes);
    var files := shards[1].files;
    assert files[..1] == shards[0].files && shards[0].files[..0] == [];
    assert TableOrder(shards) == ["users"];
    assert |Matches(shards[0].files, "users")| == 1;
    assert Matches(files, "users") == Matches(files[..1], "users");
    var r := Rebuild(EXAMPLE_SPEC, shards);
    m := r.value;
  }

  lemma UnlistedBytesOfExample(bytes: int)
    ensures TotalUnlisted(UnlistedExample(bytes), ["users"]) == bytes
  {
    var shards := UnlistedExample(bytes);
    var files := shards[1].files;
    assert files[..1] == shards[0].files && files[..1][..0] == [];
    assert UnlistedBytes(files[..1], ["users"]) == 0 && UnlistedBytes(files, ["users"]) == bytes;
    assert shards[..1] == [shards[0]] && shards[..1][..0] == [];
    assert TotalUnlisted(shards[..1], ["users"]) == 0;
  }
}
