/** Properties of the block store that relate several calls: records read
    back as they were saved, writes leave every other record alone, the
    counter tracks the highest height offered, and the height index only
    points at hashes whose block and commit are stored. */
module StoreProperties {
  import opened Types
  import opened Keys
  import opened Codecs
  import opened BlockStore

  // ---------------------------------------------------------------------
  // Height counter

  /** The counter after offering each of `hs` in turn. */
  function SetHeights(s: DefaultStore, hs: seq<uint64>): (r: DefaultStore)
    ensures r.db == s.db && r.transactional == s.transactional
    ensures r.height >= s.height
    ensures forall i :: 0 <= i < |hs| ==> r.height >= hs[i]
    ensures r.height == s.height || r.height in hs
    decreases |hs|
  {
    if hs == [] then s
    else SetHeights(SetHeight(s, hs[0]), hs[1..])
  }

  // ---------------------------------------------------------------------
  // Block save and load

  /** After a successful SaveBlock, the block and commit load back both by
      height and by hash, and the index holds the header hash. */
  lemma SaveBlockThenLoad(c: Codecs, s: DefaultStore, block: Block, commit: Commit, faults: TxnFaults)
    requires Lawful(c)
    requires SaveBlock(c, s, block, commit, faults).result.Ok?
    ensures
      var s' := SaveBlock(c, s, block, commit, faults).store;
      var hash := c.headerHash(block.header);
      && LoadHashFromIndex(s', block.header.height) == Ok(hash)
      && LoadBlock(c, s', block.header.height) == Ok(block)
      && LoadBlockByHash(c, s', hash) == Ok(block)
      && LoadCommit(c, s', block.header.height) == Ok(commit)
      && LoadCommitByHash(c, s', hash) == Ok(commit)
  {
    var s' := SaveBlock(c, s, block, commit, faults).store;
    var hash := c.headerHash(block.header);
    var bk, ck, ik := BlockKey(hash), CommitKey(hash), IndexKey(block.header.height);
    var w := map[bk := c.block.marshal(block).value, ck := c.commit.marshal(commit).value, ik := hash];
    assert w[bk] == c.block.marshal(block).value by {
      assert bk != ck && bk != ik;
    }
    assert w[ck] == c.commit.marshal(commit).value by {
      assert ck != ik;
    }
    assert s'.db[bk] == c.block.marshal(block).value;
    assert s'.db[ck] == c.commit.marshal(commit).value;
    assert s'.db[ik] == hash;
  }

  /** A failed SaveBlock, at whatever step, writes nothing: no block, commit
      or index entry becomes visible, and every load answers as before. */
  lemma SaveBlockFailureWritesNothing(c: Codecs, s: DefaultStore, block: Block, commit: Commit, faults: TxnFaults, height: uint64, hash: Hash)
    requires !faults.NoFaults() || !s.transactional
    ensures
      var s' := SaveBlock(c, s, block, commit, faults).store;
      && s' == s
      && LoadBlock(c, s', height) == LoadBlock(c, s, height)
      && LoadBlockByHash(c, s', hash) == LoadBlockByHash(c, s, hash)
      && LoadCommit(c, s', height) == LoadCommit(c, s, height)
      && LoadCommitByHash(c, s', hash) == LoadCommitByHash(c, s, hash)
  {
  }

  /** SaveBlock touches no other height's index entry, no other hash's block
      or commit, and no responses, validators or state record. */
  lemma SaveBlockFrame(c: Codecs, s: DefaultStore, block: Block, commit: Commit, faults: TxnFaults, id: KeyId)
    requires id != IndexId(block.header.height)
    requires id != BlockId(c.headerHash(block.header)) && id != CommitId(c.headerHash(block.header))
    ensures
      var s' := SaveBlock(c, s, block, commit, faults).store;
      && (KeyOf(id) in s'.db <==> KeyOf(id) in s.db)
      && (KeyOf(id) in s.db ==> s'.db[KeyOf(id)] == s.db[KeyOf(id)])
  {
    var r := SaveBlock(c, s, block, commit, faults);
    if r.result.Ok? {
      var hash := c.headerHash(block.header);
      var k := KeyOf(id);
      if k == BlockKey(hash) { KeyOfInjective(id, BlockId(hash)); }
      if k == CommitKey(hash) { KeyOfInjective(id, CommitId(hash)); }
      if k == IndexKey(block.header.height) { KeyOfInjective(id, IndexId(block.header.height)); }
      var w := map[BlockKey(hash) := c.block.marshal(block).value,
                   CommitKey(hash) := c.commit.marshal(commit).value,
                   IndexKey(block.header.height) := hash];
      assert k !in w;
      assert WritesExactly(s.db, r.store.db, w);
    }
  }

  /** Saving a block leaves the counter where it was: SaveBlock does not
      raise it, so callers offer the height separately. */
  lemma SaveBlockKeepsHeight(c: Codecs, s: DefaultStore, block: Block, commit: Commit, faults: TxnFaults)
    ensures Height(SaveBlock(c, s, block, commit, faults).store) == Height(s)
  {
  }

  /** Save a block at height 10 with hash H, then offer height 10: loading
      height 10 or hash H returns the block, the counter is at least 10, and
      height 11 (never indexed) is not found. */
  lemma SaveAtTenScenario(c: Codecs, s: DefaultStore, block: Block, commit: Commit)
    requires Lawful(c)
    requires block.header.height == 10 && IndexKey(11) !in s.db
    requires SaveBlock(c, s, block, commit, TxnFaults(false, false, false, false, false)).result.Ok?
    ensures
      var s' := SetHeight(SaveBlock(c, s, block, commit, TxnFaults(false, false, false, false, false)).store, 10);
      && LoadBlock(c, s', 10) == Ok(block)
      && LoadBlockByHash(c, s', c.headerHash(block.header)) == Ok(block)
      && Height(s') >= 10
      && LoadBlock(c, s', 11) == Err(NotFound)
  {
    var faults := TxnFaults(false, false, false, false, false);
    var s1 := SaveBlock(c, s, block, commit, faults).store;
    SaveBlockThenLoad(c, s, block, commit, faults);
    SaveBlockFrame(c, s, block, commit, faults, IndexId(11));
  }

  // ---------------------------------------------------------------------
  // Single-key records

  lemma SaveBlockResponsesThenLoad(c: Codecs, s: DefaultStore, height: uint64, responses: ABCIResponses)
    requires Lawful(c)
    requires SaveBlockResponses(c, s, height, responses).result.Ok?
    ensures LoadBlockResponses(c, SaveBlockResponses(c, s, height, responses).store, height) == Ok(responses)
  {
  }

  lemma SaveValidatorsThenLoad(c: Codecs, s: DefaultStore, height: uint64, validators: ValidatorSet)
    requires Lawful(c)
    requires SaveValidators(c, s, height, validators).result.Ok?
    ensures LoadValidators(c, SaveValidators(c, s, height, validators).store, height) == Ok(validators)
  {
    var pb := c.validators.toProto(validators).value;
    assert c.validators.fromProto(pb) == (validators, true);
  }

  /** The second of two state updates wins wholesale, and loading it
      reseeds the counter from its last block height. */
  lemma UpdateStateTwiceThenLoad(c: Codecs, s: DefaultStore, first: State, second: State)
    requires Lawful(c)
    requires UpdateState(c, s, first).result.Ok?
    requires UpdateState(c, UpdateState(c, s, first).store, second).result.Ok?
    ensures
      var r := LoadState(c, UpdateState(c, UpdateState(c, s, first).store, second).store);
      && r.result == Ok(second)
      && Height(r.store) == ToUint64(second.lastBlockHeight)
  {
    var pb := c.state.toProto(second).value;
    assert c.state.fromProto(pb) == (second, true);
  }

  /** LoadState is an initialisation, not an offer: it lowers the counter
      when the stored state's last block height is below it. */
  lemma LoadStateCanLowerHeight(c: Codecs, s: DefaultStore, state: State)
    requires Lawful(c)
    requires UpdateState(c, s, state).result.Ok?
    requires 0 <= state.lastBlockHeight < s.height
    ensures Height(LoadState(c, UpdateState(c, s, state).store).store) < Height(s)
  {
    var pb := c.state.toProto(state).value;
    assert c.state.fromProto(pb) == (state, true);
  }

  // ---------------------------------------------------------------------
  // Sequences of operations

  /** The operations that change the store. */
  datatype Op =
    | SetHeightOp(height: uint64)
    | SaveBlockOp(block: Block, commit: Commit, faults: TxnFaults)
    | SaveBlockResponsesOp(height: uint64, responses: ABCIResponses)
    | UpdateStateOp(state: State)
    | SaveValidatorsOp(height: uint64, validators: ValidatorSet)
    | LoadStateOp

  function Step(c: Codecs, s: DefaultStore, op: Op): (s': DefaultStore) {
    match op
    case SetHeightOp(h) => SetHeight(s, h)
    case SaveBlockOp(b, cm, f) => SaveBlock(c, s, b, cm, f).store
    case SaveBlockResponsesOp(h, r) => SaveBlockResponses(c, s, h, r).store
    case UpdateStateOp(st) => UpdateState(c, s, st).store
    case SaveValidatorsOp(h, v) => SaveValidators(c, s, h, v).store
    case LoadStateOp => LoadState(c, s).store
  }

  function Run(c: Codecs, s: DefaultStore, ops: seq<Op>): (s': DefaultStore)
    decreases |ops|
  {
    if ops == [] then s else Run(c, Step(c, s, ops[0]), ops[1..])
  }

  /** The records an operation may write. */
  predicate Writes(c: Codecs, op: Op, id: KeyId) {
    match op
    case SaveBlockOp(b, _, _) =>
      id == BlockId(c.headerHash(b.header)) || id == CommitId(c.headerHash(b.header)) || id == IndexId(b.header.height)
    case SaveBlockResponsesOp(h, _) => id == ResponsesId(h)
    case UpdateStateOp(_) => id == StateId
    case SaveValidatorsOp(h, _) => id == ValidatorsId(h)
    case _ => false
  }

  /** Writing the responses at one height changes no other record: not the
      responses at another height, and nothing of another class. */
  lemma SaveBlockResponsesFrame(c: Codecs, s: DefaultStore, height: uint64, responses: ABCIResponses, id: KeyId)
    requires id != ResponsesId(height)
    ensures
      var s' := SaveBlockResponses(c, s, height, responses).store;
      && (KeyOf(id) in s'.db <==> KeyOf(id) in s.db)
      && (KeyOf(id) in s.db ==> s'.db[KeyOf(id)] == s.db[KeyOf(id)])
  {
    if KeyOf(id) == ResponsesKey(height) { KeyOfInjective(id, ResponsesId(height)); }
  }

  /** Writing the validator set at one height changes no other record. */
  lemma SaveValidatorsFrame(c: Codecs, s: DefaultStore, height: uint64, validators: ValidatorSet, id: KeyId)
    requires id != ValidatorsId(height)
    ensures
      var s' := SaveValidators(c, s, height, validators).store;
      && (KeyOf(id) in s'.db <==> KeyOf(id) in s.db)
      && (KeyOf(id) in s.db ==> s'.db[KeyOf(id)] == s.db[KeyOf(id)])
  {
    if KeyOf(id) == ValidatorsKey(height) { KeyOfInjective(id, ValidatorsId(height)); }
  }

  /** Updating the chain state changes no other record. */
  lemma UpdateStateFrame(c: Codecs, s: DefaultStore, state: State, id: KeyId)
    requires id != StateId
    ensures
      var s' := UpdateState(c, s, state).store;
      && (KeyOf(id) in s'.db <==> KeyOf(id) in s.db)
      && (KeyOf(id) in s.db ==> s'.db[KeyOf(id)] == s.db[KeyOf(id)])
  {
    if KeyOf(id) == StateKey() { KeyOfInjective(id, StateId); }
  }

  lemma StepFrame(c: Codecs, s: DefaultStore, op: Op, id: KeyId)
    requires !Writes(c, op, id)
    ensures KeyOf(id) in Step(c, s, op).db <==> KeyOf(id) in s.db
    ensures KeyOf(id) in s.db ==> Step(c, s, op).db[KeyOf(id)] == s.db[KeyOf(id)]
  {
    match op
    case SaveBlockOp(b, cm, f) => SaveBlockFrame(c, s, b, cm, f, id);
    case SaveBlockResponsesOp(h, r) => SaveBlockResponsesFrame(c, s, h, r, id);
    case UpdateStateOp(st) => UpdateStateFrame(c, s, st, id);
    case SaveValidatorsOp(h, v) => SaveValidatorsFrame(c, s, h, v, id);
    case SetHeightOp(_) =>
    case LoadStateOp =>
  }

  /** A record no operation of the sequence writes is exactly as it was. */
  lemma {:induction false} RunFrame(c: Codecs, s: DefaultStore, ops: seq<Op>, id: KeyId)
    requires forall i :: 0 <= i < |ops| ==> !Writes(c, ops[i], id)
    ensures KeyOf(id) in Run(c, s, ops).db <==> KeyOf(id) in s.db
    ensures KeyOf(id) in s.db ==> Run(c, s, ops).db[KeyOf(id)] == s.db[KeyOf(id)]
    decreases |ops|
  {
    if ops != [] {
      StepFrame(c, s, ops[0], id);
      RunFrame(c, Step(c, s, ops[0]), ops[1..], id);
    }
  }

  /** From an empty datastore, a height no operation has saved a block at
      cannot be loaded: the lookup error, never a decode error. */
  lemma NeverSavedBlockNotFound(c: Codecs, transactional: bool, ops: seq<Op>, height: uint64)
    requires forall i :: 0 <= i < |ops| ==> !Writes(c, ops[i], IndexId(height))
    ensures LoadBlock(c, Run(c, New(map[], transactional), ops), height) == Err(NotFound)
    ensures LoadCommit(c, Run(c, New(map[], transactional), ops), height) == Err(NotFound)
  {
    RunFrame(c, New(map[], transactional), ops, IndexId(height));
  }

  /** Likewise for block responses and validator sets. */
  lemma NeverSavedHeightRecordsNotFound(c: Codecs, transactional: bool, ops: seq<Op>, height: uint64)
    requires forall i :: 0 <= i < |ops| ==> !Writes(c, ops[i], ResponsesId(height))
    requires forall i :: 0 <= i < |ops| ==> !Writes(c, ops[i], ValidatorsId(height))
    ensures LoadBlockResponses(c, Run(c, New(map[], transactional), ops), height) == Err(NotFound)
    ensures LoadValidators(c, Run(c, New(map[], transactional), ops), height) == Err(NotFound)
  {
    RunFrame(c, New(map[], transactional), ops, ResponsesId(height));
    RunFrame(c, New(map[], transactional), ops, ValidatorsId(height));
  }

  /** The highest height offered by the SetHeightOp steps of a sequence,
      starting from h. */
  function HighestOffer(h: uint64, ops: seq<Op>): (m: uint64)
    decreases |ops|
  {
    if ops == [] then h
    else HighestOffer(if ops[0].SetHeightOp? then Max(h, ops[0].height) else h, ops[1..])
  }

  /** Without a LoadStateOp, the counter equals the highest height offered
      through SetHeight; saves of any kind leave it alone. */
  lemma {:induction false} RunHeightIsHighestOffer(c: Codecs, s: DefaultStore, ops: seq<Op>)
    requires forall i :: 0 <= i < |ops| ==> !ops[i].LoadStateOp?
    ensures Height(Run(c, s, ops)) == HighestOffer(Height(s), ops)
    ensures Height(Run(c, s, ops)) >= Height(s)
    decreases |ops|
  {
    if ops != [] {
      RunHeightIsHighestOffer(c, Step(c, s, ops[0]), ops[1..]);
      HighestOfferGrows(Step(c, s, ops[0]).height, ops[1..]);
    }
  }

  lemma {:induction false} HighestOfferGrows(h: uint64, ops: seq<Op>)
    ensures HighestOffer(h, ops) >= h
    decreases |ops|
  {
    if ops != [] {
      HighestOfferGrows(if ops[0].SetHeightOp? then Max(h, ops[0].height) else h, ops[1..]);
    }
  }

  // ---------------------------------------------------------------------
  // Index consistency

  /** Every well-formed index entry names a hash whose block and commit are
      both stored. */
  ghost predicate IndexConsistent(db: Datastore) {
    forall height: uint64 {:trigger IndexKey(height)} ::
      IndexKey(height) in db && |db[IndexKey(height)]| == HashSize ==>
        BlockKey(db[IndexKey(height)]) in db && CommitKey(db[IndexKey(height)]) in db
  }

  /** A save writes its index entry together with its block and commit, or
      writes nothing. */
  lemma SaveBlockKeepsIndexConsistent(c: Codecs, s: DefaultStore, block: Block, commit: Commit, faults: TxnFaults)
    requires IndexConsistent(s.db)
    ensures IndexConsistent(SaveBlock(c, s, block, commit, faults).store.db)
  {
    var s' := SaveBlock(c, s, block, commit, faults).store;
    forall height: uint64 | IndexKey(height) in s'.db && |s'.db[IndexKey(height)]| == HashSize
      ensures BlockKey(s'.db[IndexKey(height)]) in s'.db && CommitKey(s'.db[IndexKey(height)]) in s'.db
    {
      if block.header.height != height {
        SaveBlockFrame(c, s, block, commit, faults, IndexId(height));
      }
    }
  }

  lemma StepKeepsIndexConsistent(c: Codecs, s: DefaultStore, op: Op)
    requires IndexConsistent(s.db)
    ensures IndexConsistent(Step(c, s, op).db)
  {
    if op.SaveBlockOp? {
      SaveBlockKeepsIndexConsistent(c, s, op.block, op.commit, op.faults);
    } else {
      var s' := Step(c, s, op);
      forall height: uint64 | IndexKey(height) in s'.db && |s'.db[IndexKey(height)]| == HashSize
        ensures BlockKey(s'.db[IndexKey(height)]) in s'.db && CommitKey(s'.db[IndexKey(height)]) in s'.db
      {
        var hash: Hash := s'.db[IndexKey(height)];
        StepFrame(c, s, op, IndexId(height));
        assert IndexKey(height) in s.db && s.db[IndexKey(height)] == hash;
        assert s'.db.Keys >= s.db.Keys;
      }
    }
  }

  /** No sequence of operations can leave an index entry dangling. */
  lemma {:induction false} RunKeepsIndexConsistent(c: Codecs, s: DefaultStore, ops: seq<Op>)
    requires IndexConsistent(s.db)
    ensures IndexConsistent(Run(c, s, ops).db)
    decreases |ops|
  {
    if ops != [] {
      StepKeepsIndexConsistent(c, s, ops[0]);
      RunKeepsIndexConsistent(c, Step(c, s, ops[0]), ops[1..]);
    }
  }
}
