/** The `utils` helpers: the generic `Min`, the random-string generator, and
    the two conversions between the protobuf deposit, the etherman deposit and
    the protobuf transaction.

    Library calls whose behaviour lies outside the service are parameters:
    `rand.Intn` is the sequence of values it returned, and the go-ethereum and
    math/big conversions plus `GetChainIdByNetworkId` are the fields of a
    `Foreign` record. */
module Utils {
  import opened Wrappers
  import opened GoInts
  import Hex

  // ---------------------------------------------------------------------------
  // Min
  // ---------------------------------------------------------------------------

  /** `Min(x, y)` for a type whose `<` is `less`. */
  function Min<T>(x: T, y: T, less: (T, T) -> bool): (r: T)
    ensures r == x || r == y
  {
    if less(x, y) then x else y
  }

  /** Wherever `<` behaves like an order on the two arguments, the minimum is
      below neither of them. */
  lemma MinIsLowerBound<T>(x: T, y: T, less: (T, T) -> bool)
    requires !less(x, x) && !less(y, y)
    requires less(x, y) ==> !less(y, x)
    ensures !less(x, Min(x, y, less)) && !less(y, Min(x, y, less))
  {
  }

  /** When neither argument is below the other (equal integers, `+0.0` and
      `-0.0`, or a NaN operand) the second argument is returned. */
  lemma MinTieTakesSecond<T>(x: T, y: T, less: (T, T) -> bool)
    requires !less(x, y)
    ensures Min(x, y, less) == y
  {
  }

  /** `Min` on integers is their greatest lower bound. */
  lemma MinOfIntegers(x: int, y: int)
    ensures var m := Min(x, y, (a: int, b: int) => a < b);
      m <= x && m <= y && (m == x || m == y)
  {
  }

  // ---------------------------------------------------------------------------
  // generateRandomString
  // ---------------------------------------------------------------------------

  const Lowercase := "abcdefghijklmnopqrstuvwxyz"
  const Uppercase := "ABCDEFGHIJKLMNOPQRSTUVWXYZ"
  const Decimal := "0123456789"

  /** The 62 characters `generateRandomString` draws from. */
  const Charset := Lowercase + Uppercase + Decimal

  predicate IsAlphanumeric(c: char)
  {
    'a' <= c <= 'z' || 'A' <= c <= 'Z' || '0' <= c <= '9'
  }

  /** `n` consecutive characters starting at `lo`. */
  function CharRange(lo: char, n: nat): (s: string)
    requires lo as int + n <= 0xD800
    ensures |s| == n && forall i :: 0 <= i < n ==> s[i] as int == lo as int + i
  {
    seq(n, i requires 0 <= i < n => (lo as int + i) as char)
  }

  lemma LowercaseIsRange()
    ensures Lowercase == CharRange('a', 26)
  {
  }

  lemma UppercaseIsRange()
    ensures Uppercase == CharRange('A', 26)
  {
  }

  lemma DecimalIsRange()
    ensures Decimal == CharRange('0', 10)
  {
  }

  /** The charset is the lower-case letters, the upper-case letters and the
      decimal digits, each range in order: the character at each position. */
  lemma CharsetAt(i: int)
    requires 0 <= i < 62
    ensures |Charset| == 62
    ensures i < 26 ==> Charset[i] as int == 'a' as int + i
    ensures 26 <= i < 52 ==> Charset[i] as int == 'A' as int + (i - 26)
    ensures 52 <= i ==> Charset[i] as int == '0' as int + (i - 52)
  {
    LowercaseIsRange();
    UppercaseIsRange();
    DecimalIsRange();
    if i < 26 {
      assert Charset[i] == Lowercase[i];
    } else if i < 52 {
      assert Charset[i] == Uppercase[i - 26];
    } else {
      assert Charset[i] == Decimal[i - 52];
    }
  }

  /** The charset holds 62 characters, all of them alphanumeric. */
  lemma CharsetIsAlphanumeric()
    ensures |Charset| == 62
    ensures forall i :: 0 <= i < |Charset| ==> IsAlphanumeric(Charset[i])
  {
    CharsetAt(0);
    forall i | 0 <= i < |Charset|
      ensures IsAlphanumeric(Charset[i])
    {
      CharsetAt(i);
    }
  }

  /** Where `c` sits in the charset: every alphanumeric character is there. */
  function CharsetIndex(c: char): (i: nat)
    requires IsAlphanumeric(c)
    ensures i < |Charset| && Charset[i] == c
  {
    var i := if 'a' <= c <= 'z' then c as int - 'a' as int
      else if 'A' <= c <= 'Z' then c as int - 'A' as int + 26
      else c as int - '0' as int + 52;
    CharsetAt(i);
    i
  }

  /** `generateRandomString(length)`, where `draws[i]` is what the `i`-th call
      of `rand.Intn(len(charset))` returned. */
  method GenerateRandomString(length: nat, draws: seq<int>) returns (s: string)
    requires |draws| == length
    requires forall i :: 0 <= i < |draws| ==> 0 <= draws[i] < |Charset|
    ensures |s| == length
    ensures forall i :: 0 <= i < |s| ==> IsAlphanumeric(s[i])
    ensures forall i :: 0 <= i < |s| ==> s[i] == Charset[draws[i]]
  {
    CharsetIsAlphanumeric();
    var b := seq(length, _ => 0 as char);
    var i := 0;
    while i < length
      invariant 0 <= i <= length && |b| == length
      invariant forall j :: 0 <= j < i ==> b[j] == Charset[draws[j]]
    {
      b := b[i := Charset[draws[i]]];
      i := i + 1;
    }
    s := b;
  }

  /** The draws that make the generator produce `t`: every alphanumeric string
      of a given length is a possible output. */
  function DrawsFor(t: string): (draws: seq<int>)
    requires forall i :: 0 <= i < |t| ==> IsAlphanumeric(t[i])
    ensures |draws| == |t|
    ensures forall i :: 0 <= i < |draws| ==> 0 <= draws[i] < |Charset| && Charset[draws[i]] == t[i]
  {
    seq(|t|, i requires 0 <= i < |t| => CharsetIndex(t[i]))
  }

  // ---------------------------------------------------------------------------
  // Deposits and transactions
  // ---------------------------------------------------------------------------

  /** A go-ethereum `common.Address`. */
  datatype Address = Address(bytes: seq<uint8>)

  /** A go-ethereum `common.Hash`. */
  datatype Hash = Hash(bytes: seq<uint8>)

  /** A `time.Time`, which the conversions only observe through `UnixMilli`. */
  datatype Time = Time(unixMilli: int64)

  /** The zero `time.Time`, 1 January of year 1, in milliseconds since 1970. */
  const ZeroTime := Time(-62_135_596_800_000)

  /** A `pb.Deposit`. */
  datatype PbDeposit = PbDeposit(
    leafType: uint32,
    origNet: uint32,
    origAddr: string,
    amount: string,
    destNet: uint32,
    destAddr: string,
    depositCnt: uint64,
    blockNum: uint64,
    networkId: uint32,
    txHash: string,
    metadata: string,
    readyForClaim: bool)

  /** An `etherman.Deposit`; `amount` is the `*big.Int`, nil when unset. */
  datatype EthermanDeposit = EthermanDeposit(
    leafType: uint8,
    originalNetwork: uint,
    originalAddress: Address,
    amount: Option<int>,
    destinationNetwork: uint,
    destinationAddress: Address,
    depositCount: uint,
    blockNumber: uint64,
    networkId: uint,
    txHash: Hash,
    metadata: seq<uint8>,
    readyForClaim: bool,
    time: Time,
    id: uint64)

  /** A `pb.Transaction`. */
  datatype PbTransaction = PbTransaction(
    fromChain: uint32,
    toChain: uint32,
    bridgeToken: string,
    tokenAmount: string,
    time: uint64,
    txHash: string,
    fromChainId: uint64,
    toChainId: uint64,
    id: uint64,
    index: uint64,
    metadata: string,
    destAddr: string,
    leafType: uint32,
    blockNumber: uint64)

  /** Conversions of other libraries and packages, taken as given:
      `common.HexToAddress`, `common.HexToHash`, `common.FromHex`,
      `(*big.Int).SetString(s, 10)` (None for the nil it returns on bad input),
      `(*big.Int).String` on a non-nil value, `Address.Hex`, `Hash.String` and
      `GetChainIdByNetworkId`. */
  datatype Foreign = Foreign(
    hexToAddress: string -> Address,
    hexToHash: string -> Hash,
    fromHex: string -> seq<uint8>,
    parseDecimal: string -> Option<int>,
    decimalText: int -> string,
    addressHex: Address -> string,
    hashText: Hash -> string,
    chainIdOf: uint -> uint64)

  /** The transaction's metadata text: `"0x"` and the lower-case hex of the bytes. */
  function MetadataText(m: seq<uint8>): (s: string)
    ensures |s| == 2 + 2 * |m|
    ensures s[..2] == "0x"
    ensures forall i :: 2 <= i < |s| ==> Hex.IsDigit(s[i])
    ensures Hex.Decode(s[2..]) == Some(m)
  {
    var s := "0x" + Hex.Encode(m);
    assert s[2..] == Hex.Encode(m);
    Hex.DecodeEncode(m);
    s
  }

  /** `PbToEthermanDeposit(pbDeposit)`. */
  function PbToEthermanDeposit(pb: Option<PbDeposit>, f: Foreign): (r: Option<EthermanDeposit>)
    ensures r.None? <==> pb.None?
    // the leaf type keeps its low eight bits only
    ensures r.Some? ==> (pb.value.leafType - r.value.leafType) % 0x100 == 0
    ensures r.Some? && pb.value.leafType < 0x100 ==> r.value.leafType == pb.value.leafType
    // every other number widens without loss
    ensures r.Some? ==>
      && r.value.originalNetwork == pb.value.origNet
      && r.value.destinationNetwork == pb.value.destNet
      && r.value.networkId == pb.value.networkId
      && r.value.depositCount == pb.value.depositCnt
      && r.value.blockNumber == pb.value.blockNum
      && r.value.readyForClaim == pb.value.readyForClaim
    // texts go through the foreign parsers; an unparsable amount leaves it nil
    ensures r.Some? ==>
      && r.value.amount == f.parseDecimal(pb.value.amount)
      && r.value.metadata == f.fromHex(pb.value.metadata)
      && r.value.originalAddress == f.hexToAddress(pb.value.origAddr)
      && r.value.destinationAddress == f.hexToAddress(pb.value.destAddr)
      && r.value.txHash == f.hexToHash(pb.value.txHash)
    // fields the protobuf deposit does not carry keep Go's zero values
    ensures r.Some? ==> r.value.time == ZeroTime && r.value.id == 0
  {
    match pb
    case None => None
    case Some(p) =>
      Some(EthermanDeposit(
        leafType := ToUint8(p.leafType),
        originalNetwork := p.origNet,
        originalAddress := f.hexToAddress(p.origAddr),
        amount := f.parseDecimal(p.amount),
        destinationNetwork := p.destNet,
        destinationAddress := f.hexToAddress(p.destAddr),
        depositCount := p.depositCnt,
        blockNumber := p.blockNum,
        networkId := p.networkId,
        txHash := f.hexToHash(p.txHash),
        metadata := f.fromHex(p.metadata),
        readyForClaim := p.readyForClaim,
        time := ZeroTime,
        id := 0))
  }

  /** `EthermanDepositToPbTransaction(deposit)`. */
  function EthermanDepositToPbTransaction(d: Option<EthermanDeposit>, f: Foreign): (r: Option<PbTransaction>)
    ensures r.None? <==> d.None?
    // the network ids keep their low 32 bits only
    ensures r.Some? ==>
      && (d.value.networkId - r.value.fromChain) % 0x1_0000_0000 == 0
      && (d.value.destinationNetwork - r.value.toChain) % 0x1_0000_0000 == 0
    ensures r.Some? && d.value.networkId < 0x1_0000_0000 ==> r.value.fromChain == d.value.networkId
    ensures r.Some? && d.value.destinationNetwork < 0x1_0000_0000 ==> r.value.toChain == d.value.destinationNetwork
    // the deposit count, block number, id and leaf type carry over unchanged
    ensures r.Some? ==>
      && r.value.index == d.value.depositCount
      && r.value.blockNumber == d.value.blockNumber
      && r.value.id == d.value.id
      && r.value.leafType == d.value.leafType
    // the millisecond time is reinterpreted as unsigned
    ensures r.Some? ==> (r.value.time - d.value.time.unixMilli) % 0x1_0000_0000_0000_0000 == 0
    ensures r.Some? && d.value.time.unixMilli >= 0 ==> r.value.time == d.value.time.unixMilli
    // the metadata is "0x" and the hex of the bytes, and reads back to them
    ensures r.Some? ==>
      && |r.value.metadata| == 2 + 2 * |d.value.metadata|
      && r.value.metadata[..2] == "0x"
      && (forall i :: 2 <= i < |r.value.metadata| ==> Hex.IsDigit(r.value.metadata[i]))
      && Hex.Decode(r.value.metadata[2..]) == Some(d.value.metadata)
    // `(*big.Int).String()` prints a nil amount as "<nil>", any other by the foreign printer
    ensures r.Some? && d.value.amount.None? ==> r.value.tokenAmount == "<nil>"
    ensures r.Some? && d.value.amount.Some? ==> r.value.tokenAmount == f.decimalText(d.value.amount.value)
    // the addresses and the hash are printed by the foreign printers, each from its own field
    ensures r.Some? ==>
      && r.value.bridgeToken == f.addressHex(d.value.originalAddress)
      && r.value.destAddr == f.addressHex(d.value.destinationAddress)
      && r.value.txHash == f.hashText(d.value.txHash)
    ensures r.Some? ==>
      && r.value.fromChainId == f.chainIdOf(d.value.networkId)
      && r.value.toChainId == f.chainIdOf(d.value.destinationNetwork)
  {
    match d
    case None => None
    case Some(e) =>
      Some(PbTransaction(
        fromChain := ToUint32(e.networkId),
        toChain := ToUint32(e.destinationNetwork),
        bridgeToken := f.addressHex(e.originalAddress),
        tokenAmount := (match e.amount case None => "<nil>" case Some(v) => f.decimalText(v)),
        time := ToUint64(e.time.unixMilli),
        txHash := f.hashText(e.txHash),
        fromChainId := f.chainIdOf(e.networkId),
        toChainId := f.chainIdOf(e.destinationNetwork),
        id := e.id,
        index := e.depositCount,
        metadata := MetadataText(e.metadata),
        destAddr := f.addressHex(e.destinationAddress),
        leafType := e.leafType,
        blockNumber := e.blockNumber))
  }

  /** A protobuf deposit taken through both conversions: the network ids, the
      index and the block number survive, the leaf type keeps only its low
      eight bits, the unset time surfaces as the unsigned reading of the zero
      time, and an unparsable amount surfaces as `<nil>`. */
  lemma DepositToTransaction(p: PbDeposit, f: Foreign)
    ensures var t := EthermanDepositToPbTransaction(PbToEthermanDeposit(Some(p), f), f).value;
      && t.fromChain == p.networkId
      && t.toChain == p.destNet
      && t.index == p.depositCnt
      && t.blockNumber == p.blockNum
      && t.leafType < 0x100 && (p.leafType - t.leafType) % 0x100 == 0
      && t.time == 0x1_0000_0000_0000_0000 - 62_135_596_800_000
      && (f.parseDecimal(p.amount).None? ==> t.tokenAmount == "<nil>")
      && Hex.Decode(t.metadata[2..]) == Some(f.fromHex(p.metadata))
  {
  }
}
