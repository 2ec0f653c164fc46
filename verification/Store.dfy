/** The transaction index on disk against a scan of the blocks. */
module Store {
  import opened Prelude
  import opened Bytes
  import opened Lanes

  type Hash = int
  type Text = int

  const TWO_TO_16 := 0x1_0000

  // ----- transactions and blocks

  datatype Fields = Fields(
    nonce: nat, sender: Text, recipient: Text, gasLimit: nat, gasPrice: nat, gasUsed: nat,
    data: Bytestring, hash: Hash, signature: Bytestring)

  datatype Tx = Tx(fields: Fields, value: int, lane: Byte, encryptedData: Bytestring)

  datatype Block = Block(height: UInt64, transactions: seq<Tx>)

  /** The on-disk row of a transaction: no lane and no encrypted payload. */
  datatype TxData = TxData(fields: Fields, value: Bytestring)

  function ToRow(tx: Tx): TxData {
    TxData(tx.fields, Magnitude(Abs(tx.value)))
  }

  function FromRow(row: TxData): Tx {
    Tx(row.fields, Number(row.value), CONSENSUS_LANE, [])
  }

  /** What is left of a transaction after a trip to disk: its lane becomes the consensus lane, its
      encrypted payload is dropped and its value loses its sign. */
  function Recovered(tx: Tx): Tx {
    tx.(value := Abs(tx.value), lane := CONSENSUS_LANE, encryptedData := [])
  }

  lemma RowKeeps(tx: Tx)
    ensures FromRow(ToRow(tx)) == Recovered(tx)
    ensures Recovered(tx) == tx <==> tx.value >= 0 && tx.lane == CONSENSUS_LANE && tx.encryptedData == []
  {
    NumberOfMagnitude(Abs(tx.value));
  }

  // ----- the two buckets

  datatype Position = Position(height: UInt64, index: nat)

  datatype Found = Found(tx: Tx, height: UInt64)

  datatype Disk = Disk(index: map<Hash, Bytestring>, txs: map<Bytestring, seq<TxData>>)

  /** Eight bytes of height and two of index: the index is kept modulo 65,536. */
  function EncodePosition(p: Position): Bytestring {
    BigEndian(p.height, 8) + BigEndian(p.index % TWO_TO_16, 2)
  }

  /** The first eight bytes of a recorded place are the block's height, most significant first, and the last
      two the index in it, modulo 65,536. */
  lemma PlaceLayout(p: Position)
    ensures var code := EncodePosition(p);
            |code| == 10 && Number(code[..8]) == p.height && Number(code[8..]) == p.index % 65_536
  {
    PowersOf256();
    NumberOfBigEndian(p.height, 8);
    NumberOfBigEndian(p.index % TWO_TO_16, 2);
    assert EncodePosition(p)[..8] == BigEndian(p.height, 8);
    assert EncodePosition(p)[8..] == BigEndian(p.index % TWO_TO_16, 2);
  }

  lemma SameCode(height: UInt64, i: nat)
    ensures EncodePosition(Position(height, i % TWO_TO_16)) == EncodePosition(Position(height, i))
  {
  }

  function AfterIndexing(index: map<Hash, Bytestring>, block: Block, n: nat): map<Hash, Bytestring>
    requires n <= |block.transactions|
  {
    if n == 0 then index
    else AfterIndexing(index, block, n - 1)
         [block.transactions[n - 1].fields.hash := EncodePosition(Position(block.height, n - 1))]
  }

  function Rows(txs: seq<Tx>): seq<TxData> {
    seq(|txs|, i requires 0 <= i < |txs| => ToRow(txs[i]))
  }

  /** A block without transactions leaves no trace. */
  function AfterSync(d: Disk, block: Block): Disk {
    if block.transactions == [] then d
    else Disk(AfterIndexing(d.index, block, |block.transactions|),
              d.txs[BigEndian(block.height, 8) := Rows(block.transactions)])
  }

  function AfterSyncs(blocks: seq<Block>): Disk {
    if blocks == [] then Disk(map[], map[]) else AfterSync(AfterSyncs(blocks[..|blocks| - 1]), blocks[|blocks| - 1])
  }

  function Load(d: Disk, hash: Hash): Option<Found> {
    if hash !in d.index || |d.index[hash]| < 10 then None
    else
      var height, i := Number(d.index[hash][..8]), Number(d.index[hash][8..10]);
      var rows := if BigEndian(height, 8) in d.txs then d.txs[BigEndian(height, 8)] else [];
      if i >= |rows| || height >= TWO_TO_64 then None else Some(Found(FromRow(rows[i]), height))
  }

  class TxStore {
    var TxIndex: map<Hash, Bytestring>
    var Txs: map<Bytestring, seq<TxData>>

    ghost function Model(): Disk
      reads this
    {
      Disk(TxIndex, Txs)
    }

    constructor ()
      ensures Model() == AfterSyncs([])
    {
      TxIndex, Txs := map[], map[];
    }

    method SaveTxIndex(hash: Hash, height: UInt64, txIndex: nat)
      requires txIndex < TWO_TO_16
      modifies this`TxIndex
      ensures TxIndex == old(TxIndex)[hash := EncodePosition(Position(height, txIndex))]
    {
      TxIndex := TxIndex[hash := BigEndian(height, 8) + BigEndian(txIndex, 2)];
    }

    method SaveBlockTxs(height: UInt64, rows: seq<TxData>)
      modifies this`Txs
      ensures Txs == if rows == [] then old(Txs) else old(Txs)[BigEndian(height, 8) := rows]
    {
      if rows == [] {
        return;
      }
      Txs := Txs[BigEndian(height, 8) := rows];
    }

    method SyncTxs(block: Block)
      modifies this
      ensures Model() == AfterSync(old(Model()), block)
    {
      hide EncodePosition;
      if block.transactions == [] {
        return;
      }
      var rows: seq<TxData> := [];
      for i := 0 to |block.transactions|
        invariant rows == Rows(block.transactions[..i])
        invariant TxIndex == AfterIndexing(old(TxIndex), block, i)
        invariant Txs == old(Txs)
      {
        var tx := block.transactions[i];
        rows := rows + [TxData(tx.fields, Magnitude(Abs(tx.value)))];
        SameCode(block.height, i);
        SaveTxIndex(tx.fields.hash, block.height, i % TWO_TO_16);
      }
      assert block.transactions[..|block.transactions|] == block.transactions;
      SaveBlockTxs(block.height, rows);
    }

    method LoadTxIndex(hash: Hash) returns (height: nat, txIndex: nat, found: bool)
      ensures found == (hash in TxIndex && |TxIndex[hash]| >= 10)
      ensures found ==> height == Number(TxIndex[hash][..8]) && txIndex == Number(TxIndex[hash][8..10])
    {
      height, txIndex, found := 0, 0, false;
      if hash !in TxIndex || |TxIndex[hash]| < 10 {
        return;
      }
      var val := TxIndex[hash];
      height, txIndex, found := Number(val[..8]), Number(val[8..10]), true;
    }

    method LoadTxFromStore(hash: Hash) returns (r: Option<Found>)
      ensures r == Load(Model(), hash)
    {
      var height, txIndex, found := LoadTxIndex(hash);
      if !found {
        return None;
      }
      NumberFits(TxIndex[hash][..8]);
      PowersOf256();
      var key := BigEndian(height, 8);
      var rows := if key in Txs then Txs[key] else [];
      if txIndex >= |rows| {
        return None;
      }
      return Some(Found(FromRow(rows[txIndex]), height));
    }
  }

  // ----- the scan that the index stands in for

  /** The last place of a hash in a block. */
  function LastIn(txs: seq<Tx>, hash: Hash): (r: Option<nat>)
    ensures r.Some? ==> r.value < |txs| && txs[r.value].fields.hash == hash
                        && forall i | r.value < i < |txs| :: txs[i].fields.hash != hash
    ensures r.None? ==> forall i | 0 <= i < |txs| :: txs[i].fields.hash != hash
  {
    if txs == [] then None
    else if txs[|txs| - 1].fields.hash == hash then Some(|txs| - 1)
    else LastIn(txs[..|txs| - 1], hash)
  }

  /** The last occurrence of a hash in a list of blocks. */
  function LastPosition(blocks: seq<Block>, hash: Hash): Option<Position> {
    if blocks == [] then None
    else
      var block := blocks[|blocks| - 1];
      var i := LastIn(block.transactions, hash);
      if i.Some? then Some(Position(block.height, i.value)) else LastPosition(blocks[..|blocks| - 1], hash)
  }

  /** The transactions last stored under a height. */
  function StoredAt(blocks: seq<Block>, height: UInt64): seq<Tx> {
    if blocks == [] then []
    else
      var block := blocks[|blocks| - 1];
      if block.height == height && block.transactions != [] then block.transactions
      else StoredAt(blocks[..|blocks| - 1], height)
  }

  function Scan(blocks: seq<Block>, hash: Hash): Option<Found> {
    if blocks == [] then None
    else
      var block := blocks[|blocks| - 1];
      var i := LastIn(block.transactions, hash);
      if i.Some? then Some(Found(Recovered(block.transactions[i.value]), block.height))
      else Scan(blocks[..|blocks| - 1], hash)
  }

  lemma {:induction false} IndexingFinds(index: map<Hash, Bytestring>, block: Block, n: nat, hash: Hash)
    requires n <= |block.transactions|
    ensures var i := LastIn(block.transactions[..n], hash);
            var after := AfterIndexing(index, block, n);
            if i.Some? then hash in after && after[hash] == EncodePosition(Position(block.height, i.value))
            else (hash in after <==> hash in index) && (hash in index ==> after[hash] == index[hash])
  {
    hide EncodePosition;
    if n > 0 {
      assert block.transactions[..n][..n - 1] == block.transactions[..n - 1];
      IndexingFinds(index, block, n - 1, hash);
    }
  }

  lemma {:induction false} IndexHolds(blocks: seq<Block>, hash: Hash)
    ensures var index := AfterSyncs(blocks).index;
            match LastPosition(blocks, hash)
            case None => hash !in index
            case Some(p) => hash in index && index[hash] == EncodePosition(p)
  {
    if blocks != [] {
      var block := blocks[|blocks| - 1];
      IndexHolds(blocks[..|blocks| - 1], hash);
      IndexingFinds(AfterSyncs(blocks[..|blocks| - 1]).index, block, |block.transactions|, hash);
      assert block.transactions[..|block.transactions|] == block.transactions;
    }
  }

  lemma {:induction false} RowsHold(blocks: seq<Block>, height: UInt64)
    ensures var txs := AfterSyncs(blocks).txs;
            var key := BigEndian(height, 8);
            if StoredAt(blocks, height) == [] then key !in txs
            else key in txs && txs[key] == Rows(StoredAt(blocks, height))
  {
    if blocks != [] {
      var block := blocks[|blocks| - 1];
      RowsHold(blocks[..|blocks| - 1], height);
      PowersOf256();
      NumberOfBigEndian(block.height, 8);
      NumberOfBigEndian(height, 8);
    }
  }

  /** For every history of synced blocks, at any heights in any order: a lookup answers with the
      transaction that the height's last stored block has at the recorded place modulo 65,536. */
  lemma LookupIs(blocks: seq<Block>, hash: Hash)
    ensures Load(AfterSyncs(blocks), hash) ==
            match LastPosition(blocks, hash)
            case None => None
            case Some(p) =>
              var txs := StoredAt(blocks, p.height);
              var i := p.index % TWO_TO_16;
              if i < |txs| then Some(Found(Recovered(txs[i]), p.height)) else None
  {
    hide AfterSyncs, LastPosition, StoredAt, BigEndian, Number, ToRow, FromRow, Recovered;
    IndexHolds(blocks, hash);
    if LastPosition(blocks, hash).Some? {
      var p := LastPosition(blocks, hash).value;
      RowsHold(blocks, p.height);
      PowersOf256();
      NumberOfBigEndian(p.height, 8);
      NumberOfBigEndian(p.index % TWO_TO_16, 2);
      var val := EncodePosition(p);
      assert val[..8] == BigEndian(p.height, 8) && val[8..10] == BigEndian(p.index % TWO_TO_16, 2);
      var txs := StoredAt(blocks, p.height);
      if p.index % TWO_TO_16 < |txs| {
        RowKeeps(txs[p.index % TWO_TO_16]);
      }
    }
  }

  predicate HeightsRise(blocks: seq<Block>) {
    forall i, j | 0 <= i < j < |blocks| :: blocks[i].height < blocks[j].height
  }

  predicate Indexable(blocks: seq<Block>) {
    forall i | 0 <= i < |blocks| :: |blocks[i].transactions| <= TWO_TO_16
  }

  lemma {:induction false} ScanAtPosition(blocks: seq<Block>, hash: Hash)
    requires HeightsRise(blocks) && Indexable(blocks)
    ensures match LastPosition(blocks, hash)
            case None => Scan(blocks, hash) == None
            case Some(p) =>
              && p.index < |StoredAt(blocks, p.height)| <= TWO_TO_16
              && Scan(blocks, hash) == Some(Found(Recovered(StoredAt(blocks, p.height)[p.index]), p.height))
              && exists i :: 0 <= i < |blocks| && blocks[i].height == p.height
  {
    if blocks != [] {
      var block := blocks[|blocks| - 1];
      if LastIn(block.transactions, hash).None? {
        ScanAtPosition(blocks[..|blocks| - 1], hash);
      } else {
        assert blocks[|blocks| - 1].height == block.height;
      }
    }
  }

  /** While blocks are synced at rising heights, none of them above 65,536 transactions, a lookup
      gives for every hash what a scan of all blocks gives: its last occurrence. */
  lemma LookupIsScan(blocks: seq<Block>, hash: Hash)
    requires HeightsRise(blocks) && Indexable(blocks)
    ensures Load(AfterSyncs(blocks), hash) == Scan(blocks, hash)
  {
    hide AfterSyncs, LastPosition, StoredAt, Scan, Load, Recovered, HeightsRise, Indexable;
    LookupIs(blocks, hash);
    ScanAtPosition(blocks, hash);
  }

  /** Rising heights are needed: after a second block at one height, a hash that only the first one
      holds is answered with whatever transaction the second one has at its place. */
  lemma ReplacedBlock(blocks: seq<Block>, first: Block, second: Block, hash: Hash)
    requires first.height == second.height && second.transactions != []
    requires LastIn(first.transactions, hash).Some? && LastIn(second.transactions, hash).None?
    ensures var i := LastIn(first.transactions, hash).value % TWO_TO_16;
            var r := Load(AfterSyncs(blocks + [first, second]), hash);
            if i < |second.transactions|
            then r == Some(Found(Recovered(second.transactions[i]), first.height)) && r.value.tx.fields.hash != hash
            else r == None
  {
    var all := blocks + [first, second];
    assert all[..|all| - 1] == blocks + [first];
    assert (blocks + [first])[..|blocks|] == blocks;
    LookupIs(all, hash);
  }
}
