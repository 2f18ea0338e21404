/** The default block store: record-level save and load operations mapped
    onto a flat key-value datastore, plus an in-memory height counter.
    The store is an immutable value; every operation that may write returns
    the store after the call together with its result. */
module BlockStore {
  import opened Types
  import opened Keys
  import opened Codecs

  /** The key-value datastore, seen as its current contents. */
  type Datastore = map<string, Bytes>

  /** `transactional` records whether the datastore is the badger backend,
      the only one that can open the transaction SaveBlock needs. */
  datatype DefaultStore = DefaultStore(db: Datastore, height: uint64, transactional: bool)

  /** The store after an operation, and what the operation returned. */
  datatype Effect<T> = Effect(store: DefaultStore, result: Result<T>)

  /** Which steps of SaveBlock's transaction the engine rejects. */
  datatype TxnFaults = TxnFaults(
    createFails: bool,
    blockPutFails: bool,
    commitPutFails: bool,
    indexPutFails: bool,
    commitFails: bool)
  {
    predicate NoFaults() {
      !createFails && !blockPutFails && !commitPutFails && !indexPutFails && !commitFails
    }
  }

  /** `after` is `before` with exactly the entries of `w` written over it. */
  ghost predicate WritesExactly(before: Datastore, after: Datastore, w: Datastore) {
    && after.Keys == before.Keys + w.Keys
    && (forall k :: k in w ==> after[k] == w[k])
    && (forall k :: k in before && k !in w ==> after[k] == before[k])
  }

  function Max(a: uint64, b: uint64): (m: uint64) {
    if a < b then b else a
  }

  /** A fresh store over `db`; the counter starts at zero. */
  function New(db: Datastore, transactional: bool): (s: DefaultStore)
    ensures s.height == 0 && s.db == db && s.transactional == transactional
  {
    DefaultStore(db, 0, transactional)
  }

  // ---------------------------------------------------------------------
  // Height counter

  /** Atomic compare-and-swap on a counter cell: the new cell value. */
  function CompareAndSwap(cell: uint64, expected: uint64, replacement: uint64): (r: uint64)
    ensures cell == expected ==> r == replacement
    ensures cell != expected ==> r == cell
  {
    if cell == expected then replacement else cell
  }

  /** Raises the counter to `height` if that is higher. The counter is read
      once and swapped once; with no concurrent writer the swap succeeds. */
  function SetHeight(s: DefaultStore, height: uint64): (r: DefaultStore)
    ensures r.height == Max(s.height, height)
    ensures r.height >= s.height
    ensures r.db == s.db && r.transactional == s.transactional
  {
    var observed := s.height;
    if height > observed then s.(height := CompareAndSwap(s.height, observed, height))
    else s
  }

  /** The counter; no datastore access. */
  function Height(s: DefaultStore): (h: uint64)
    ensures h == s.height
  {
    s.height
  }

  // ---------------------------------------------------------------------
  // Datastore access

  /** A point lookup; a missing key is the lookup error. */
  function Get(db: Datastore, key: string): (r: Result<Bytes>)
    ensures r.Ok? <==> key in db
    ensures r.Ok? ==> r.value == db[key]
    ensures r.Err? ==> r.error == NotFound
  {
    if key in db then Ok(db[key]) else Err(NotFound)
  }

  /** The writes staged in an open transaction, and whether any staging
      step has failed so far (errors accumulate, later puts still run). */
  datatype Txn = Txn(staged: Datastore, failed: bool)

  function TxnPut(t: Txn, key: string, value: Bytes, fails: bool): (r: Txn)
    ensures r.failed <==> t.failed || fails
    ensures !r.failed ==> r.staged == t.staged[key := value]
  {
    if fails then t.(failed := true) else t.(staged := t.staged[key := value])
  }

  /** Stores a block and its commit: block and commit under the header hash,
      and the hash under the block's height in the index, all three staged
      in one transaction. Any failure leaves the datastore untouched. The
      counter is not changed. */
  function SaveBlock(c: Codecs, s: DefaultStore, block: Block, commit: Commit, faults: TxnFaults): (r: Effect<()>)
    ensures r.store.height == s.height && r.store.transactional == s.transactional
    ensures r.result.Err? ==> r.store == s
    ensures r.result.Ok? <==>
      && c.block.marshal(block).Some?
      && c.commit.marshal(commit).Some?
      && s.transactional
      && faults.NoFaults()
    ensures c.block.marshal(block).None? || c.commit.marshal(commit).None? ==>
      r.result == Err(EncodeFailure)
    ensures c.block.marshal(block).Some? && c.commit.marshal(commit).Some? ==>
      && (!s.transactional ==> r.result == Err(UnsupportedBackend))
      && (s.transactional && faults.createFails ==> r.result == Err(TxnCreateFailure))
      && (s.transactional && !faults.createFails
          && (faults.blockPutFails || faults.commitPutFails || faults.indexPutFails)
          ==> r.result == Err(TxnPutFailure))
      && (s.transactional && !faults.createFails
          && !faults.blockPutFails && !faults.commitPutFails && !faults.indexPutFails
          && faults.commitFails
          ==> r.result == Err(TxnCommitFailure))
    ensures r.result.Ok? ==>
      var hash := c.headerHash(block.header);
      WritesExactly(s.db, r.store.db,
        map[BlockKey(hash) := c.block.marshal(block).value,
            CommitKey(hash) := c.commit.marshal(commit).value,
            IndexKey(block.header.height) := hash])
  {
    var hash := c.headerHash(block.header);
    match c.block.marshal(block)
    case None => Effect(s, Err(EncodeFailure))
    case Some(blockBlob) =>
      match c.commit.marshal(commit)
      case None => Effect(s, Err(EncodeFailure))
      case Some(commitBlob) =>
        if !s.transactional then Effect(s, Err(UnsupportedBackend))
        else if faults.createFails then Effect(s, Err(TxnCreateFailure))
        else
          var t0 := Txn(map[], false);
          var t1 := TxnPut(t0, BlockKey(hash), blockBlob, faults.blockPutFails);
          var t2 := TxnPut(t1, CommitKey(hash), commitBlob, faults.commitPutFails);
          var t3 := TxnPut(t2, IndexKey(block.header.height), hash, faults.indexPutFails);
          if t3.failed then
            // the transaction is discarded
            Effect(s, Err(TxnPutFailure))
          else if faults.commitFails then
            Effect(s, Err(TxnCommitFailure))
          else
            Effect(s.(db := s.db + t3.staged), Ok(()))
  }

  /** The hash the index holds for `height`: missing entry, wrong length,
      or the 32 stored bytes. */
  function LoadHashFromIndex(s: DefaultStore, height: uint64): (r: Result<Hash>)
    ensures r == Err(NotFound) <==> IndexKey(height) !in s.db
    ensures r == Err(InvalidHashLength) <==>
      IndexKey(height) in s.db && |s.db[IndexKey(height)]| != HashSize
    ensures r.Ok? <==> IndexKey(height) in s.db && |s.db[IndexKey(height)]| == HashSize
    ensures r.Ok? ==> r.value == s.db[IndexKey(height)]
  {
    var blob :- Get(s.db, IndexKey(height));
    if |blob| != HashSize then Err(InvalidHashLength)
    else Ok(blob)
  }

  function LoadBlockByHash(c: Codecs, s: DefaultStore, hash: Hash): (r: Result<Block>)
    ensures r == Err(NotFound) <==> BlockKey(hash) !in s.db
    ensures r.Err? ==> r.error in {NotFound, DecodeFailure}
    ensures r.Ok? <==> BlockKey(hash) in s.db && c.block.unmarshal(s.db[BlockKey(hash)]).Some?
    ensures r.Ok? ==> c.block.unmarshal(s.db[BlockKey(hash)]) == Some(r.value)
  {
    var blob :- Get(s.db, BlockKey(hash));
    match c.block.unmarshal(blob)
    case None => Err(DecodeFailure)
    case Some(b) => Ok(b)
  }

  /** Resolves `height` through the index, then loads by hash. */
  function LoadBlock(c: Codecs, s: DefaultStore, height: uint64): (r: Result<Block>)
    ensures IndexKey(height) !in s.db ==> r == Err(NotFound)
    ensures IndexKey(height) in s.db && |s.db[IndexKey(height)]| != HashSize ==> r == Err(InvalidHashLength)
    ensures r.Err? ==> r.error in {NotFound, InvalidHashLength, DecodeFailure}
    ensures LoadHashFromIndex(s, height).Ok? && BlockKey(LoadHashFromIndex(s, height).value) !in s.db ==>
      r == Err(NotFound)
    ensures r.Ok? <==>
      LoadHashFromIndex(s, height).Ok? && LoadBlockByHash(c, s, LoadHashFromIndex(s, height).value).Ok?
    ensures r.Ok? ==> LoadBlockByHash(c, s, LoadHashFromIndex(s, height).value) == r
    ensures LoadHashFromIndex(s, height).Ok? ==> r == LoadBlockByHash(c, s, LoadHashFromIndex(s, height).value)
  {
    var hash :- LoadHashFromIndex(s, height);
    LoadBlockByHash(c, s, hash)
  }

  function LoadCommitByHash(c: Codecs, s: DefaultStore, hash: Hash): (r: Result<Commit>)
    ensures r == Err(NotFound) <==> CommitKey(hash) !in s.db
    ensures r.Err? ==> r.error in {NotFound, DecodeFailure}
    ensures r.Ok? <==> CommitKey(hash) in s.db && c.commit.unmarshal(s.db[CommitKey(hash)]).Some?
    ensures r.Ok? ==> c.commit.unmarshal(s.db[CommitKey(hash)]) == Some(r.value)
  {
    var blob :- Get(s.db, CommitKey(hash));
    match c.commit.unmarshal(blob)
    case None => Err(DecodeFailure)
    case Some(cm) => Ok(cm)
  }

  function LoadCommit(c: Codecs, s: DefaultStore, height: uint64): (r: Result<Commit>)
    ensures IndexKey(height) !in s.db ==> r == Err(NotFound)
    ensures IndexKey(height) in s.db && |s.db[IndexKey(height)]| != HashSize ==> r == Err(InvalidHashLength)
    ensures r.Err? ==> r.error in {NotFound, InvalidHashLength, DecodeFailure}
    ensures LoadHashFromIndex(s, height).Ok? && CommitKey(LoadHashFromIndex(s, height).value) !in s.db ==>
      r == Err(NotFound)
    ensures r.Ok? <==>
      LoadHashFromIndex(s, height).Ok? && LoadCommitByHash(c, s, LoadHashFromIndex(s, height).value).Ok?
    ensures r.Ok? ==> LoadCommitByHash(c, s, LoadHashFromIndex(s, height).value) == r
    ensures LoadHashFromIndex(s, height).Ok? ==> r == LoadCommitByHash(c, s, LoadHashFromIndex(s, height).value)
  {
    var hash :- LoadHashFromIndex(s, height);
    LoadCommitByHash(c, s, hash)
  }

  // ---------------------------------------------------------------------
  // Single-key records: block responses, chain state, validator sets

  function SaveBlockResponses(c: Codecs, s: DefaultStore, height: uint64, responses: ABCIResponses): (r: Effect<()>)
    ensures r.result.Ok? <==> c.responses.marshal(responses).Some?
    ensures r.result.Err? ==> r.store == s && r.result.error == EncodeFailure
    ensures r.result.Ok? ==>
      r.store == s.(db := s.db[ResponsesKey(height) := c.responses.marshal(responses).value])
  {
    match c.responses.marshal(responses)
    case None => Effect(s, Err(EncodeFailure))
    case Some(data) => Effect(s.(db := s.db[ResponsesKey(height) := data]), Ok(()))
  }

  function LoadBlockResponses(c: Codecs, s: DefaultStore, height: uint64): (r: Result<ABCIResponses>)
    ensures r == Err(NotFound) <==> ResponsesKey(height) !in s.db
    ensures r.Err? ==> r.error in {NotFound, DecodeFailure}
    ensures r.Ok? <==>
      ResponsesKey(height) in s.db && c.responses.unmarshal(s.db[ResponsesKey(height)]).Some?
    ensures r.Ok? ==> c.responses.unmarshal(s.db[ResponsesKey(height)]) == Some(r.value)
  {
    var data :- Get(s.db, ResponsesKey(height));
    match c.responses.unmarshal(data)
    case None => Err(DecodeFailure)
    case Some(resp) => Ok(resp)
  }

  /** Replaces the singleton chain-state record. */
  function UpdateState(c: Codecs, s: DefaultStore, state: State): (r: Effect<()>)
    ensures r.result.Ok? <==>
      c.state.toProto(state).Some? && c.state.wire.marshal(c.state.toProto(state).value).Some?
    ensures r.result.Err? ==> r.store == s && r.result.error == EncodeFailure
    ensures r.result.Ok? ==>
      r.store == s.(db := s.db[StateKey() := c.state.wire.marshal(c.state.toProto(state).value).value])
  {
    match c.state.toProto(state)
    case None => Effect(s, Err(EncodeFailure))
    case Some(pb) =>
      match c.state.wire.marshal(pb)
      case None => Effect(s, Err(EncodeFailure))
      case Some(data) => Effect(s.(db := s.db[StateKey() := data]), Ok(()))
  }

  /** Reads the chain state and reseeds the counter from its last block
      height. The counter is overwritten whenever the stored bytes unmarshal,
      even when converting them into a State fails, and even when that lowers
      it. The datastore is never changed. */
  function LoadState(c: Codecs, s: DefaultStore): (r: Effect<State>)
    ensures r.store.db == s.db && r.store.transactional == s.transactional
    ensures r.result == Err(NotFound) <==> StateKey() !in s.db
    ensures r.result.Err? ==> r.result.error in {NotFound, DecodeFailure}
    ensures StateKey() !in s.db ==> r.store == s
    ensures StateKey() in s.db && c.state.wire.unmarshal(s.db[StateKey()]).None? ==>
      r.store == s && r.result == Err(DecodeFailure)
    ensures StateKey() in s.db && c.state.wire.unmarshal(s.db[StateKey()]).Some? ==>
      var (loaded, converted) := c.state.fromProto(c.state.wire.unmarshal(s.db[StateKey()]).value);
      && r.store.height == ToUint64(loaded.lastBlockHeight)
      && r.result == (if converted then Ok(loaded) else Err(DecodeFailure))
  {
    match Get(s.db, StateKey())
    case Err(e) => Effect(s, Err(e))
    case Ok(blob) =>
      match c.state.wire.unmarshal(blob)
      case None => Effect(s, Err(DecodeFailure))
      case Some(pb) =>
        var (state, converted) := c.state.fromProto(pb);
        var s' := s.(height := ToUint64(state.lastBlockHeight));
        Effect(s', if converted then Ok(state) else Err(DecodeFailure))
  }

  function SaveValidators(c: Codecs, s: DefaultStore, height: uint64, validators: ValidatorSet): (r: Effect<()>)
    ensures r.result.Ok? <==>
      c.validators.toProto(validators).Some?
      && c.validators.wire.marshal(c.validators.toProto(validators).value).Some?
    ensures r.result.Err? ==> r.store == s && r.result.error == EncodeFailure
    ensures r.result.Ok? ==>
      r.store == s.(db := s.db[ValidatorsKey(height) :=
        c.validators.wire.marshal(c.validators.toProto(validators).value).value])
  {
    match c.validators.toProto(validators)
    case None => Effect(s, Err(EncodeFailure))
    case Some(pb) =>
      match c.validators.wire.marshal(pb)
      case None => Effect(s, Err(EncodeFailure))
      case Some(blob) => Effect(s.(db := s.db[ValidatorsKey(height) := blob]), Ok(()))
  }

  function LoadValidators(c: Codecs, s: DefaultStore, height: uint64): (r: Result<ValidatorSet>)
    ensures r == Err(NotFound) <==> ValidatorsKey(height) !in s.db
    ensures r.Err? ==> r.error in {NotFound, DecodeFailure}
    ensures r.Ok? <==>
      && ValidatorsKey(height) in s.db
      && c.validators.wire.unmarshal(s.db[ValidatorsKey(height)]).Some?
      && c.validators.fromProto(c.validators.wire.unmarshal(s.db[ValidatorsKey(height)]).value).1
    ensures r.Ok? ==>
      && c.validators.fromProto(c.validators.wire.unmarshal(s.db[ValidatorsKey(height)]).value) == (r.value, true)
  {
    var blob :- Get(s.db, ValidatorsKey(height));
    match c.validators.wire.unmarshal(blob)
    case None => Err(DecodeFailure)
    case Some(pb) =>
      var (vs, converted) := c.validators.fromProto(pb);
      if converted then Ok(vs) else Err(DecodeFailure)
  }
}
