/** The storage file of the tracker, seen as a sequence of CSV rows
    (budget_tracker.py, `load_transactions` and `save_transaction`). The
    bytes of the CSV dialect and the text form of the amounts are not
    modelled: a row is either the header `type,amount,description,category,date`
    or one record. */
module Storage {

  import opened Wrappers
  import opened Ledger

  datatype Row = Header | Record(t: Transaction)

  /** Why reading the file back fails. */
  datatype LoadError =
    /** The first row was a record, which the CSV reader takes as the header:
        the rows after it have no `amount` column (a `KeyError`). */
    | MissingAmountColumn
    /** A header row after the first row: its amount cell is the text
        `amount`, which `float` rejects (a `ValueError`). */
    | AmountNotANumber

  /** The file after `save_transaction(t)` (budget_tracker.py:19-24): the
      header is written only when the file is empty, then one row. */
  function Save(file: seq<Row>, t: Transaction): seq<Row>
  {
    file + (if file == [] then [Header] else []) + [Record(t)]
  }

  /** The file after saving the records `ts`, oldest first. */
  function SaveAll(file: seq<Row>, ts: seq<Transaction>): seq<Row>
    decreases |ts|
  {
    if ts == [] then file else SaveAll(Save(file, ts[0]), ts[1..])
  }

  /** The records of the rows after the header, in file order. */
  function ReadRecords(rows: seq<Row>): Result<seq<Transaction>, LoadError>
    decreases |rows|
  {
    if rows == [] then Success([])
    else
      match ReadRecords(rows[..|rows| - 1])
      case Failure(e) => Failure(e)
      case Success(ts) =>
        match rows[|rows| - 1]
        case Header => Failure(AmountNotANumber)
        case Record(t) => Success(ts + [t])
  }

  /** What `load_transactions` (budget_tracker.py:11-17) leaves in memory: no
      file, or an empty one, gives an empty ledger; otherwise the first row
      is consumed as the header and every later row must be a record. */
  function Load(file: Option<seq<Row>>): Result<seq<Transaction>, LoadError>
  {
    match file
    case None => Success([])
    case Some(rows) =>
      if rows == [] then Success([])
      else if rows[0].Record? then
        if |rows| == 1 then Success([]) else Failure(MissingAmountColumn)
      else ReadRecords(rows[1..])
  }

  /** A file with no rows, or whose first row is the header. */
  predicate HeaderFirst(rows: seq<Row>)
  {
    rows == [] || rows[0] == Header
  }

  /** The loop of `load_transactions` (budget_tracker.py:15-17): every row
      after the header is converted in turn, and the first one that cannot be
      stops the load. */
  method LoadTransactions(file: Option<seq<Row>>) returns (r: Result<seq<Transaction>, LoadError>)
    ensures r == Load(file)
  {
    if file.None? || file.value == [] {
      return Success([]);
    }
    var rows := file.value;
    if rows[0].Record? {
      if |rows| == 1 {
        return Success([]);
      }
      return Failure(MissingAmountColumn);
    }
    var records := rows[1..];
    var ts: seq<Transaction> := [];
    for i := 0 to |records|
      invariant ReadRecords(records[..i]) == Success(ts)
    {
      assert records[..i + 1][..i] == records[..i];
      match records[i]
      case Header =>
        assert ReadRecords(records[..i + 1]) == Failure(AmountNotANumber);
        ReadRecordsFailurePersists(records, i + 1);
        return Failure(AmountNotANumber);
      case Record(t) =>
        ts := ts + [t];
    }
    assert records[..|records|] == records;
    r := Success(ts);
  }

  /** Once a prefix of the rows fails to read, the whole fails the same way. */
  lemma {:induction false} ReadRecordsFailurePersists(rows: seq<Row>, n: nat)
    requires n <= |rows| && ReadRecords(rows[..n]).Failure?
    ensures ReadRecords(rows) == ReadRecords(rows[..n])
    decreases |rows| - n
  {
    if n == |rows| {
      assert rows[..n] == rows;
    } else {
      assert rows[..n + 1][..n] == rows[..n];
      ReadRecordsFailurePersists(rows, n + 1);
    }
  }

  /** Reading succeeds exactly on rows that are all records, and gives their
      transactions in file order. */
  lemma {:induction false} ReadRecordsExactly(rows: seq<Row>, ts: seq<Transaction>)
    ensures ReadRecords(rows) == Success(ts) <==>
      |rows| == |ts| && forall i :: 0 <= i < |rows| ==> rows[i] == Record(ts[i])
    decreases |rows|
  {
    if rows != [] {
      var n := |rows| - 1;
      if ts != [] {
        ReadRecordsExactly(rows[..n], ts[..|ts| - 1]);
        if |rows| == |ts| && forall i :: 0 <= i < |rows| ==> rows[i] == Record(ts[i]) {
          assert ts == ts[..|ts| - 1] + [ts[n]];
        }
      } else {
        // A non-empty run of rows never reads as an empty ledger.
        if ReadRecords(rows[..n]).Success? && rows[n].Record? {
          assert ReadRecords(rows) == Success(ReadRecords(rows[..n]).value + [rows[n].t]);
        }
      }
    }
  }

  /** Saving one record to a file that reads back as `ts` and starts with the
      header (or is empty) gives a file that reads back as `ts + [t]` and
      still starts with the header. */
  lemma SaveThenLoad(file: seq<Row>, ts: seq<Transaction>, t: Transaction)
    requires HeaderFirst(file) && Load(Some(file)) == Success(ts)
    ensures HeaderFirst(Save(file, t)) && Save(file, t) != []
    ensures Load(Some(Save(file, t))) == Success(ts + [t])
  {
    var saved := Save(file, t);
    if file == [] {
      assert saved == [Header, Record(t)];
      assert saved[1..] == [Record(t)];
      assert saved[1..][..0] == [];
      assert ReadRecords([Record(t)]) == Success([t]) by {
        assert [Record(t)][..0] == [];
        assert [] + [t] == [t];
      }
      assert ts == [] && ts + [t] == [t];
    } else {
      assert saved == file + [Record(t)];
      assert saved[1..] == file[1..] + [Record(t)];
      assert saved[1..][..|saved[1..]| - 1] == file[1..];
    }
  }

  /** Round trip: saving records one after another, starting from a file
      that reads back as `prior`, gives a file that reads back as `prior`
      followed by those records in the order they were saved. */
  lemma {:induction false} SaveAllThenLoad(file: seq<Row>, prior: seq<Transaction>, ts: seq<Transaction>)
    requires HeaderFirst(file) && Load(Some(file)) == Success(prior)
    ensures HeaderFirst(SaveAll(file, ts))
    ensures Load(Some(SaveAll(file, ts))) == Success(prior + ts)
    decreases |ts|
  {
    if ts == [] {
      assert prior + ts == prior;
    } else {
      SaveThenLoad(file, prior, ts[0]);
      SaveAllThenLoad(Save(file, ts[0]), prior + [ts[0]], ts[1..]);
      assert prior + [ts[0]] + ts[1..] == prior + ts;
    }
  }

  /** A file written from scratch holds exactly one header, first, followed
      by one row per saved record in the order they were saved. */
  lemma SavedFileLayout(ts: seq<Transaction>)
    requires ts != []
    ensures |SaveAll([], ts)| == |ts| + 1 && SaveAll([], ts)[0] == Header
    ensures forall i :: 0 <= i < |ts| ==> SaveAll([], ts)[i + 1] == Record(ts[i])
  {
    SaveAllThenLoad([], [], ts);
    var rows := SaveAll([], ts);
    assert [] + ts == ts;
    ReadRecordsExactly(rows[1..], ts);
    assert forall i :: 0 <= i < |ts| ==> rows[1..][i] == rows[i + 1];
  }

  /** A file whose only row is a record, with no header: the CSV reader takes
      that row as the header, so the record is not loaded; the next save adds
      no header, and the file then fails to load. */
  lemma HeaderlessFile(x: Transaction, t: Transaction)
    ensures Load(Some([Record(x)])) == Success([])
    ensures Load(Some(Save([Record(x)], t))) == Failure(MissingAmountColumn)
  {
    assert Save([Record(x)], t) == [Record(x), Record(t)];
  }
}
