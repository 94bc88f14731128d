/**
 * duplicate_checker.py: the set of listing ids already present in an existing CSV file.
 *
 * The file system is a map from file names to what reading them gives: the rows of a CSV file, or
 * `Unreadable` when opening or decoding fails. A row maps column names to cells; a `None` cell is
 * the value `csv.DictReader` fills in when a row is shorter than the header.
 */
module DuplicateChecking {

  import opened Common
  import opened Text
  import opened Config

  type Row = map<string, Option<string>>

  datatype CsvFile = Rows(rows: seq<Row>) | Unreadable

  const IdColumn := "房源编号"
  const DefaultCsvFile := "anjuke_houses.csv"

  /** `row.get('房源编号', '')`: `None` is the short-row cell on which `.strip()` raises. */
  function IdCell(row: Row): Option<string> {
    if IdColumn in row then row[IdColumn] else Some("")
  }

  /** Whether reading the id column of some row raises. */
  predicate HasShortRow(rows: seq<Row>) {
    exists i :: 0 <= i < |rows| && IdCell(rows[i]).None?
  }

  /** The stripped, non-empty ids of rows whose id cell is present. */
  function Collected(rows: seq<Row>): set<string> {
    if rows == [] then {}
    else
      var earlier := Collected(rows[..|rows| - 1]);
      var cell := IdCell(rows[|rows| - 1]);
      if cell.Some? && Strip(cell.value) != [] then earlier + {Strip(cell.value)} else earlier
  }

  /** An id is collected exactly when some row's present id cell strips to it and it is not empty. */
  lemma {:induction false} CollectedMembers(rows: seq<Row>, id: string)
    ensures id in Collected(rows) <==>
      id != [] && exists i :: 0 <= i < |rows| && IdCell(rows[i]).Some? && Strip(IdCell(rows[i]).value) == id
  {
    if rows != [] {
      var init := rows[..|rows| - 1];
      CollectedMembers(init, id);
      assert forall i :: 0 <= i < |init| ==> rows[i] == init[i];
      if id in Collected(rows) && id !in Collected(init) {
        assert IdCell(rows[|rows| - 1]).Some? && Strip(IdCell(rows[|rows| - 1]).value) == id;
      }
    }
  }

  /** Every collected id is stripped and non-empty. */
  lemma {:induction false} CollectedAreStripped(rows: seq<Row>)
    ensures forall id :: id in Collected(rows) ==> id != [] && Stripped(id)
  {
    if rows != [] {
      CollectedAreStripped(rows[..|rows| - 1]);
    }
  }

  /** The file the checker reads: the given one, else the first CSV_FILENAME line of `.env`, else the default. */
  function ResolvedFile(csvFile: Option<string>, env: Option<seq<string>>): string {
    if csvFile.Some? && csvFile.value != [] then csvFile.value
    else FirstSetting(env, "CSV_FILENAME").GetOr(DefaultCsvFile)
  }

  /** What `_load_existing_ids` leaves in `crawled_ids`; every exception path leaves it empty. */
  function LoadedIds(file: string, files: map<string, CsvFile>): set<string> {
    if file !in files then {}
    else
      match files[file]
      case Unreadable => {}
      case Rows(rows) => if HasShortRow(rows) then {} else Collected(rows)
  }

  /** The statistics `get_stats` reports. */
  datatype CheckerStats = CheckerStats(totalCrawled: nat, csvFile: Option<string>, enabled: bool)

  class DuplicateChecker {
    var crawledIds: set<string>
    var enabled: bool
    var csvFile: Option<string>

    /** `DuplicateChecker(csv_file)`: starts enabled and loads the ids of the resolved file. */
    constructor (csvFile: Option<string>, env: Option<seq<string>>, files: map<string, CsvFile>)
      ensures enabled
      ensures this.csvFile == Some(ResolvedFile(csvFile, env))
      ensures crawledIds == LoadedIds(ResolvedFile(csvFile, env), files)
    {
      crawledIds := {};
      enabled := true;
      this.csvFile := csvFile;
      new;
      LoadExistingIds(env, files);
    }

    /** `_load_existing_ids`: names the file, then reads its ids when it exists. */
    method LoadExistingIds(env: Option<seq<string>>, files: map<string, CsvFile>)
      modifies this
      requires crawledIds == {}
      ensures csvFile == Some(ResolvedFile(old(csvFile), env))
      ensures crawledIds == LoadedIds(ResolvedFile(old(csvFile), env), files)
      ensures enabled == old(enabled)
    {
      ResolveCsvFile(env);
      var file := csvFile.value;
      if file !in files {
        return;
      }
      match files[file]
      case Unreadable =>
        crawledIds := {};
      case Rows(rows) =>
        AddIds(rows);
    }

    /** Without a (non-empty) file name, the first CSV_FILENAME line of `.env` names the file. */
    method ResolveCsvFile(env: Option<seq<string>>)
      modifies this
      ensures csvFile == Some(ResolvedFile(old(csvFile), env))
      ensures crawledIds == old(crawledIds) && enabled == old(enabled)
    {
      if csvFile.None? || csvFile.value == [] {
        var name := DefaultCsvFile;
        if env.Some? {
          var v := FindFirst(env.value, "CSV_FILENAME");
          if v.Some? {
            name := v.value;
          }
        }
        csvFile := Some(name);
      }
    }

    /** The row loop: adds every stripped non-empty id; a short row raises and empties the set. */
    method AddIds(rows: seq<Row>)
      modifies this
      requires crawledIds == {}
      ensures crawledIds == if HasShortRow(rows) then {} else Collected(rows)
      ensures csvFile == old(csvFile) && enabled == old(enabled)
    {
      var i := 0;
      while i < |rows|
        invariant 0 <= i <= |rows|
        invariant crawledIds == Collected(rows[..i])
        invariant !HasShortRow(rows[..i])
        invariant csvFile == old(csvFile) && enabled == old(enabled)
      {
        assert rows[..i + 1][..i] == rows[..i];
        var cell := IdCell(rows[i]);
        if cell.None? {
          // `None.strip()` raises: the handler empties the set.
          crawledIds := {};
          return;
        }
        var id := Strip(cell.value);
        if id != [] {
          crawledIds := crawledIds + {id};
        }
        i := i + 1;
        assert !HasShortRow(rows[..i]) by {
          forall j | 0 <= j < i
            ensures IdCell(rows[..i][j]).Some?
          {
            if j < i - 1 {
              assert rows[..i][j] == rows[..i - 1][j];
            }
          }
        }
      }
      assert rows[..|rows|] == rows;
    }

    /** `is_duplicate`: a pure query on the loaded ids. */
    predicate IsDuplicate(houseId: string)
      reads this
      ensures IsDuplicate(houseId) ==> houseId in crawledIds
      ensures !enabled || houseId == [] ==> !IsDuplicate(houseId)
    {
      enabled && houseId != [] && houseId in crawledIds
    }

    /** `enable(b)`. */
    method Enable(b: bool)
      modifies this
      ensures enabled == b && crawledIds == old(crawledIds) && csvFile == old(csvFile)
    {
      enabled := b;
    }

    /** `get_stats`: the number of loaded ids, the file and the switch. */
    function GetStats(): (s: CheckerStats)
      reads this
      ensures s.totalCrawled == |crawledIds| && s.csvFile == csvFile && s.enabled == enabled
    {
      CheckerStats(|crawledIds|, csvFile, enabled)
    }
  }

  /**
   * After loading from a readable file without short rows, an enabled checker flags exactly the
   * non-empty ids some row of the file holds (after stripping its cell); a disabled one flags nothing.
   */
  lemma IsDuplicateMeansInFile(c: DuplicateChecker, file: string, files: map<string, CsvFile>, houseId: string)
    requires file in files && files[file].Rows? && !HasShortRow(files[file].rows)
    requires c.crawledIds == LoadedIds(file, files)
    ensures c.IsDuplicate(houseId) <==>
      c.enabled && houseId != [] &&
      exists i :: 0 <= i < |files[file].rows| && Strip(IdCell(files[file].rows[i]).value) == houseId
  {
    var rows := files[file].rows;
    CollectedMembers(rows, houseId);
    if c.enabled && houseId != [] && houseId !in c.crawledIds {
      forall i | 0 <= i < |rows|
        ensures Strip(IdCell(rows[i]).value) != houseId
      {
        assert IdCell(rows[i]).Some?;
      }
    }
  }

  /** A missing or unreadable file, or one with a short row, leaves no id: nothing is a duplicate. */
  lemma NothingLoadedOnError(file: string, files: map<string, CsvFile>)
    requires file !in files || files[file].Unreadable? || HasShortRow(files[file].rows)
    ensures LoadedIds(file, files) == {}
  {
  }

  /** An id the checker flags is stripped: an id with surrounding white space is never a duplicate. */
  lemma FlaggedIdsAreStripped(c: DuplicateChecker, file: string, files: map<string, CsvFile>, houseId: string)
    requires c.crawledIds == LoadedIds(file, files)
    requires c.IsDuplicate(houseId)
    ensures Stripped(houseId)
  {
    CollectedAreStripped(files[file].rows);
  }
}
