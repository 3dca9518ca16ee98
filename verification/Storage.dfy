/**
  The SQLite tables: their rows, the statements that change them and the queries that read them.

  `Tables` is the value the tables hold, with one function for each statement. `SqliteTx` is the
  open transaction whose methods execute those statements in place.
  */
module Storage {
  import opened Prelude
  import opened Tokens
  import opened Slot96

  type Txid = nat

  datatype OutPoint = OutPoint(txid: Txid, vout: nat)
  datatype Position = Position(height: nat, txIndex: nat)
  datatype Spend = Spend(txid: Txid, at: Position)

  /** Primary key and columns of `ownership_utxos`. */
  datatype UtxoKey = UtxoKey(outpoint: OutPoint, group: Group)
  datatype UtxoRow = UtxoRow(owner: H160, script: seq<byte>, created: Position, spent: Option<Spend>)

  /** A row of `ownership_ranges`: the primary key is everything but `rangeSeq`. */
  datatype RangeRow = RangeRow(outpoint: OutPoint, slice: Slice, rangeSeq: nat)

  datatype Collection = Collection(evmAddress: H160, rebaseable: bool)
  datatype BlockRef = BlockRef(height: nat, hash: nat)

  datatype Tables = Tables(
    collections: map<CollectionKey, Collection>, utxos: map<UtxoKey, UtxoRow>, ranges: seq<RangeRow>)

  /** The whole database: the tables and the one row of `chain_state`. */
  datatype Db = Db(last: Option<BlockRef>, tables: Tables)

  // ---------------------------------------------------------------------------
  // Statements
  // ---------------------------------------------------------------------------

  function RowsAt(rows: seq<RangeRow>, op: OutPoint): seq<RangeRow> {
    if rows == [] then []
    else
      var n := |rows| - 1;
      RowsAt(rows[..n], op) + if rows[n].outpoint == op then [rows[n]] else []
  }

  /** `COALESCE(MAX(range_seq), -1) + 1` over the rows of one outpoint. */
  function NextSeq(rows: seq<RangeRow>, op: OutPoint): nat {
    if rows == [] then 0
    else
      var n := |rows| - 1;
      var m := NextSeq(rows[..n], op);
      if rows[n].outpoint == op && rows[n].rangeSeq + 1 > m then rows[n].rangeSeq + 1 else m
  }

  /** `INSERT INTO ownership_utxos ... ON CONFLICT DO NOTHING`. */
  function InsertUtxo(utxos: map<UtxoKey, UtxoRow>, key: UtxoKey, row: UtxoRow): map<UtxoKey, UtxoRow> {
    if key in utxos then utxos else utxos[key := row]
  }

  /** `INSERT INTO ownership_ranges ... ON CONFLICT DO NOTHING`. */
  function InsertRange(rows: seq<RangeRow>, op: OutPoint, s: Slice): seq<RangeRow> {
    if exists r | r in rows :: r.outpoint == op && r.slice == s then rows
    else rows + [RangeRow(op, s, NextSeq(rows, op))]
  }

  /** `UPDATE ownership_utxos SET spent_txid = ... WHERE outpoint AND spent_txid IS NULL`. */
  function MarkSpent(utxos: map<UtxoKey, UtxoRow>, op: OutPoint, spend: Spend): map<UtxoKey, UtxoRow> {
    map k | k in utxos ::
      if k.outpoint == op && utxos[k].spent.None? then utxos[k].(spent := Some(spend)) else utxos[k]
  }

  function InsertGroups(utxos: map<UtxoKey, UtxoRow>, op: OutPoint, row: UtxoRow, groups: seq<Group>)
    : map<UtxoKey, UtxoRow>
  {
    if groups == [] then utxos
    else
      var n := |groups| - 1;
      InsertUtxo(InsertGroups(utxos, op, row, groups[..n]), UtxoKey(op, groups[n]), row)
  }

  function InsertRanges(rows: seq<RangeRow>, op: OutPoint, slices: seq<Slice>): seq<RangeRow> {
    if slices == [] then rows
    else
      var n := |slices| - 1;
      InsertRange(InsertRanges(rows, op, slices[..n]), op, slices[n])
  }

  /** Everything the indexer does to give `slices` to one output. */
  function WriteOutput(t: Tables, op: OutPoint, row: UtxoRow, slices: seq<Slice>): Tables {
    t.(utxos := InsertGroups(t.utxos, op, row, UniqueGroups(slices)),
       ranges := InsertRanges(t.ranges, op, slices))
  }

  // ---------------------------------------------------------------------------
  // Queries
  // ---------------------------------------------------------------------------

  predicate IsUnspent(utxos: map<UtxoKey, UtxoRow>, key: UtxoKey) {
    key in utxos && utxos[key].spent.None?
  }

  function KeyOf(r: RangeRow): UtxoKey {
    UtxoKey(r.outpoint, r.slice.group)
  }

  /** The join of both tables on one outpoint, restricted to unspent utxo rows. */
  function JoinUnspent(rows: seq<RangeRow>, utxos: map<UtxoKey, UtxoRow>, op: OutPoint): seq<RangeRow> {
    if rows == [] then []
    else
      var n := |rows| - 1;
      JoinUnspent(rows[..n], utxos, op)
      + if rows[n].outpoint == op && IsUnspent(utxos, KeyOf(rows[n])) then [rows[n]] else []
  }

  function InsertBySeq(r: RangeRow, rows: seq<RangeRow>): seq<RangeRow> {
    if rows == [] then [r]
    else
      var n := |rows| - 1;
      if rows[n].rangeSeq <= r.rangeSeq then rows + [r] else InsertBySeq(r, rows[..n]) + [rows[n]]
  }

  /** `ORDER BY range_seq`. */
  function OrderBySeq(rows: seq<RangeRow>): seq<RangeRow> {
    if rows == [] then [] else InsertBySeq(rows[|rows| - 1], OrderBySeq(rows[..|rows| - 1]))
  }

  function SlicesOf(rows: seq<RangeRow>): seq<Slice> {
    seq(|rows|, i requires 0 <= i < |rows| => rows[i].slice)
  }

  /** `list_unspent_ownership_ranges_by_outpoint`. */
  function UnspentRanges(t: Tables, op: OutPoint): seq<Slice> {
    SlicesOf(OrderBySeq(JoinUnspent(t.ranges, t.utxos, op)))
  }

  /** `list_unspent_ownership_utxos_by_outpoint`, as the set of keys of the rows it lists. */
  function UnspentUtxos(t: Tables, op: OutPoint): set<UtxoKey> {
    set k | k in t.utxos && k.outpoint == op && t.utxos[k].spent.None?
  }

  // ---------------------------------------------------------------------------
  // The open transaction
  // ---------------------------------------------------------------------------

  class SqliteTx {
    var last: Option<BlockRef>
    var collections: map<CollectionKey, Collection>
    var utxos: map<UtxoKey, UtxoRow>
    var ranges: seq<RangeRow>

    function Contents(): Tables
      reads this
    {
      Tables(collections, utxos, ranges)
    }

    /** What committing now would leave in the file. */
    function Snapshot(): Db
      reads this
    {
      Db(last, Contents())
    }

    constructor (db: Db)
      ensures Snapshot() == db
    {
      last := db.last;
      collections := db.tables.collections;
      utxos := db.tables.utxos;
      ranges := db.tables.ranges;
    }

    method SaveLast(height: nat, hash: nat)
      modifies this`last
      ensures last == Some(BlockRef(height, hash))
    {
      last := Some(BlockRef(height, hash));
    }

    method SaveCollection(key: CollectionKey, collection: Collection)
      modifies this`collections
      ensures Contents() == old(Contents()).(collections := old(collections)[key := collection])
    {
      collections := collections[key := collection];
    }

    method SaveOwnershipUtxo(key: UtxoKey, row: UtxoRow)
      modifies this`utxos
      ensures Contents() == old(Contents()).(utxos := InsertUtxo(old(utxos), key, row))
    {
      if key !in utxos {
        utxos := utxos[key := row];
      }
    }

    /**
      Fails when the stored bounds violate `CHECK (slot_start <= slot_end)`, which compares blobs, or
      when the foreign key has no utxo row.
      */
    method SaveOwnershipRange(op: OutPoint, group: Group, slotStart: nat, slotEnd: nat)
      returns (r: Result<(), Brc721Error>)
      modifies this`ranges
      ensures r.Err? <==> !BlobLe(EncodeSlot96(slotStart), EncodeSlot96(slotEnd)) || UtxoKey(op, group) !in utxos
      ensures r.Err? ==> Contents() == old(Contents())
      ensures r.Ok? ==>
        Contents() == old(Contents()).(
          ranges := InsertRange(old(ranges), op, Slice(group, Stored(slotStart), Stored(slotEnd))))
    {
      if !BlobLe(EncodeSlot96(slotStart), EncodeSlot96(slotEnd)) || UtxoKey(op, group) !in utxos {
        return Err(StorageError);
      }
      var s := Slice(group, Stored(slotStart), Stored(slotEnd));
      if !exists row | row in ranges :: row.outpoint == op && row.slice == s {
        ranges := ranges + [RangeRow(op, s, NextSeq(ranges, op))];
      }
      return Ok(());
    }

    method MarkOwnershipUtxoSpent(op: OutPoint, spend: Spend)
      modifies this`utxos
      ensures Contents() == old(Contents()).(utxos := MarkSpent(old(utxos), op, spend))
    {
      utxos := MarkSpent(utxos, op, spend);
    }
  }

  /** The database file. A transaction works on a private copy that `commit` installs. */
  class SqliteStorage {
    var disk: Db

    constructor ()
      ensures disk == EMPTY_DB
    {
      disk := EMPTY_DB;
    }

    method BeginTx() returns (tx: SqliteTx)
      ensures fresh(tx) && tx.Snapshot() == disk
    {
      tx := new SqliteTx(disk);
    }

    method Commit(tx: SqliteTx)
      modifies this
      ensures disk == tx.Snapshot()
    {
      disk := tx.Snapshot();
    }
  }

  const EMPTY_TABLES := Tables(map[], map[], [])
  const EMPTY_DB := Db(None, EMPTY_TABLES)

  /** Both stored bounds of a 96-bit range are what was given, and the check constraint holds. */
  lemma StoredRange(s: Slice)
    requires s.start <= s.end < TWO_96
    ensures BlobLe(EncodeSlot96(s.start), EncodeSlot96(s.end))
    ensures Slice(s.group, Stored(s.start), Stored(s.end)) == s
  {
    StoredOrder(s.start, s.end);
    StoredSlot(s.start);
    StoredSlot(s.end);
  }
}
