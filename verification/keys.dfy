/** Datastore keys of the block store. Every record class has a two-character
    namespace prefix; hash-keyed records append the lowercase hex of the
    32-byte hash, height-keyed records append the decimal height, and the
    singleton chain-state key is the prefix alone. `ParseKey` inverts the
    scheme, which shows that no two records share a key. */
module Keys {
  import opened Types
  import opened Encoding

  const BlockPrefix: string := "b/"
  const IndexPrefix: string := "i/"
  const CommitPrefix: string := "c/"
  const StatePrefix: string := "s/"
  const ResponsesPrefix: string := "r/"
  const ValidatorsPrefix: string := "v/"

  /** Prefix plus lowercase hex of the hash: 2 + 64 characters. */
  function HashKey(prefix: string, hash: Hash): (k: string)
    requires |prefix| == 2
    ensures |k| == 2 + 2 * HashSize
    ensures k[..2] == prefix && HexDecode(k[2..]) == Some(hash)
  {
    HexDecodeEncode(hash);
    assert (prefix + HexEncode(hash))[2..] == HexEncode(hash);
    prefix + HexEncode(hash)
  }

  /** Prefix plus the decimal height, without leading zeros. */
  function HeightKey(prefix: string, height: uint64): (k: string)
    requires |prefix| == 2
    ensures |k| > 2 && k[..2] == prefix
    ensures IsCanonicalDecimal(k[2..]) && ParseDigits(k[2..]) == height
  {
    FormatUintCanonical(height);
    ParseFormatUint(height);
    assert (prefix + FormatUint(height))[2..] == FormatUint(height);
    prefix + FormatUint(height)
  }

  function BlockKey(hash: Hash): (k: string)
    ensures |k| == 2 + 2 * HashSize && k[..2] == BlockPrefix && HexDecode(k[2..]) == Some(hash)
  {
    HashKey(BlockPrefix, hash)
  }

  function CommitKey(hash: Hash): (k: string)
    ensures |k| == 2 + 2 * HashSize && k[..2] == CommitPrefix && HexDecode(k[2..]) == Some(hash)
  {
    HashKey(CommitPrefix, hash)
  }

  function IndexKey(height: uint64): (k: string)
    ensures |k| > 2 && k[..2] == IndexPrefix
    ensures IsCanonicalDecimal(k[2..]) && ParseDigits(k[2..]) == height
  {
    HeightKey(IndexPrefix, height)
  }

  /** The singleton chain-state key: the namespace prefix alone. */
  function StateKey(): (k: string)
    ensures k == "s/"
  {
    StatePrefix
  }

  function ResponsesKey(height: uint64): (k: string)
    ensures |k| > 2 && k[..2] == ResponsesPrefix
    ensures IsCanonicalDecimal(k[2..]) && ParseDigits(k[2..]) == height
  {
    HeightKey(ResponsesPrefix, height)
  }

  function ValidatorsKey(height: uint64): (k: string)
    ensures |k| > 2 && k[..2] == ValidatorsPrefix
    ensures IsCanonicalDecimal(k[2..]) && ParseDigits(k[2..]) == height
  {
    HeightKey(ValidatorsPrefix, height)
  }

  /** The logical identity of a record: its class and its hash or height. */
  datatype KeyId =
    | BlockId(hash: Hash)
    | CommitId(hash: Hash)
    | IndexId(height: uint64)
    | StateId
    | ResponsesId(height: uint64)
    | ValidatorsId(height: uint64)

  function KeyOf(id: KeyId): (k: string) {
    match id
    case BlockId(h) => BlockKey(h)
    case CommitId(h) => CommitKey(h)
    case IndexId(n) => IndexKey(n)
    case StateId => StateKey()
    case ResponsesId(n) => ResponsesKey(n)
    case ValidatorsId(n) => ValidatorsKey(n)
  }

  /** Recovers the record identity from a datastore key; None for a string
      that no record class produces. */
  function ParseKey(k: string): (r: Option<KeyId>)
    ensures r.Some? ==> KeyOf(r.value) == k
  {
    if |k| < 2 then None
    else
      var prefix, rest := k[..2], k[2..];
      assert k == prefix + rest;
      if prefix == StatePrefix then
        if rest == [] then Some(StateId) else None
      else if prefix == BlockPrefix || prefix == CommitPrefix then
        match HexDecode(rest)
        case Some(bs) =>
          if |bs| != HashSize then None
          else
            HexEncodeDecode(rest, bs);
            if prefix == BlockPrefix then Some(BlockId(bs)) else Some(CommitId(bs))
        case None => None
      else if prefix == IndexPrefix || prefix == ResponsesPrefix || prefix == ValidatorsPrefix then
        if !IsCanonicalDecimal(rest) then None
        else
          var n := ParseDigits(rest);
          if n >= 0x1_0000_0000_0000_0000 then None
          else
            FormatParseDigits(rest);
            if prefix == IndexPrefix then Some(IndexId(n))
            else if prefix == ResponsesPrefix then Some(ResponsesId(n))
            else Some(ValidatorsId(n))
      else None
  }

  lemma ParseKeyOf(id: KeyId)
    ensures ParseKey(KeyOf(id)) == Some(id)
  {
    var k := KeyOf(id);
    match id
    case BlockId(h) =>
    case CommitId(h) =>
    case IndexId(n) =>
    case StateId =>
    case ResponsesId(n) =>
    case ValidatorsId(n) =>
  }

  /** Distinct records never share a key: within a class the key function is
      injective, and across classes the prefixes differ. */
  lemma KeyOfInjective(a: KeyId, b: KeyId)
    requires KeyOf(a) == KeyOf(b)
    ensures a == b
  {
    ParseKeyOf(a);
    ParseKeyOf(b);
  }
}
