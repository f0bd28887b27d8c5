# Coin-middleware Kafka consumer and bridge helpers, in Dafny

A Dafny model of two pieces of the bridge service's decision logic.

**The coin-middleware Kafka consumer** (`coinmiddleware/kafkaconsumer.go`).
`NewKafkaConsumer` builds a sarama configuration from the consumer's `Config`.
It switches on SASL, and TLS with it, only when both a user name and a password
are given. The TLS settings trust the embedded Aliyun root CA but skip peer
verification. Construction fails when that certificate does not parse or when
`sarama.NewConsumerGroup` fails. `Start` calls the consumer group's `Consume`
again and again:

- an error that is, or wraps, `sarama.ErrClosedConsumerGroup` ends the loop
  with nil, because `errors.Wrap(nil, …)` is nil;
- any other error ends it with that error wrapped;
- a nil return with the context done ends it with the context's error wrapped;
- a nil return with the context alive loops.

In the model, `Start` is a function of a *script*. The script gives, for each
call of `Consume`, the error the call returns and the context's error right
after it. The function returns how `Start` stands once the script is used up
(returned with some error, or still looping) and the topic list passed to each
call.

**The `utils` helpers** (`utils/helpers.go`):

- the generic `Min`;
- `generateRandomString`, with the values `rand.Intn` returned as an input;
- the conversion of a protobuf deposit to an etherman deposit (nil handling,
  narrowing of the leaf type to `uint8`);
- the conversion of an etherman deposit to a protobuf transaction (nil
  handling, narrowing of the network ids to `uint32`, the unsigned reading of
  the millisecond time, and the `"0x"`-prefixed lower-case hex metadata).

Modules: `Wrappers` (Option/Result), `GoErrors` (`errors.Wrap`, `errors.Is`),
`GoInts` (Go integer widths and conversions), `Hex` (`encoding/hex`),
`KafkaConsumer` and `Utils`.

The inputs that stand for code outside the model:

- whether the embedded root CA parses (`AppendCertsFromPEM`) is a boolean;
- `sarama.NewConsumerGroup` is a function parameter;
- `Consume` and `ctx.Err()` are the script;
- `rand.Intn` is a sequence of draws, each in `[0, 62)`;
- the go-ethereum, `math/big` and `GetChainIdByNetworkId` conversions are the
  fields of a `Foreign` record of functions.

The field types of `Config`, `pb.Deposit`, `etherman.Deposit` and
`pb.Transaction` are declared in files that are not part of this model. The
widths used here are assumptions consistent with the conversions in
`utils/helpers.go`:

- the protobuf network ids and leaf type are `uint32`;
- the counts and block numbers are `uint64`;
- `InitialOffset` is an `int64`.

The model also assumes a 64-bit platform, where Go's `uint` is 64 bits wide, so
that the `uint(...)` widenings lose nothing.

A `time.Time` is only observed through `UnixMilli`, so it is represented by
that count. Its zero value is 1 January of year 1, which is
-62 135 596 800 000 ms.

## Model

| member | source | states |
|---|---|---|
| KafkaConsumer.BuildConfig | coinmiddleware/kafkaconsumer.go:57-74 | The configuration fails exactly when both credentials are given and the root CA does not parse. Otherwise the initial offset is copied. SASL is on iff user name and password are both non-empty, and then it carries them. TLS is on exactly when SASL is, with the embedded root pool and verification skipped. Without credentials everything else keeps sarama's defaults. |
| KafkaConsumer.NewKafkaConsumer | coinmiddleware/kafkaconsumer.go:57-86 | When both credentials are given, a root CA that does not parse returns that error; without credentials the CA is never parsed. Otherwise the group is created from the configured brokers, group id and built configuration. Its failure is returned wrapped as "kafka consumer group init error". On success the consumer holds the created client, the configured topics unchanged and a handler bound to the storage. |
| KafkaConsumer.RootCAFailureCreatesNoGroup | coinmiddleware/kafkaconsumer.go:67-79 | When credentials are given and the root CA does not parse, the outcome is the certificate error whatever `NewConsumerGroup` would do. The group constructor is never consulted. |
| KafkaConsumer.Start | coinmiddleware/kafkaconsumer.go:88-108 | Never more `Consume` calls than the script has steps. At least one call for a non-empty script, because the context is not checked before the first call. Still looping only after all steps. Every call passes the configured topics unchanged. |
| KafkaConsumer.StartStopsAtFirstEnd | coinmiddleware/kafkaconsumer.go:93-107 | If the first step that fails or finds the context done is at index k, `Start` makes exactly k+1 calls and returns what that step alone decides. If there is no such step, it is still looping after one call per step. |
| KafkaConsumer.ClosedGroupEndsCleanly | coinmiddleware/kafkaconsumer.go:96-101 | A `Consume` error that is, or wraps, `ErrClosedConsumerGroup` at the first ending step k makes `Start` return nil after exactly k+1 calls. |
| KafkaConsumer.FatalErrorIsNotRetried | coinmiddleware/kafkaconsumer.go:96-101 | Any other `Consume` error at the first ending step k makes `Start` return it wrapped as "kafka consumer error" after exactly k+1 calls, with no retry. |
| KafkaConsumer.CancelledContextIsSurfaced | coinmiddleware/kafkaconsumer.go:103-106 | A nil `Consume` with the context done at the first ending step k makes `Start` return the context error wrapped as "kafka consumer ctx error" after exactly k+1 calls. |
| KafkaConsumer.AliveContextKeepsConsuming | coinmiddleware/kafkaconsumer.go:93-107 | While `Consume` returns nil and the context stays alive, `Start` calls `Consume` again after every step and does not return. |
| KafkaConsumer.NilOnlyOnCleanClose | coinmiddleware/kafkaconsumer.go:95-106 | `Start` returns nil if and only if its ending step is a clean close of the consumer group. |
| KafkaConsumer.NoCallAfterReturn | coinmiddleware/kafkaconsumer.go:93-107 | Once `Start` has returned, later answers of the environment change neither its result nor its calls. |
| KafkaConsumer.ContextReadOnlyAfterCleanConsume | coinmiddleware/kafkaconsumer.go:95-105 | Scripts that differ only in the context's state after failed `Consume` calls drive `Start` identically. The context is only read after a nil `Consume`. |
| GoErrors.Wrap | coinmiddleware/kafkaconsumer.go:99-101 | `errors.Wrap` of nil is nil. Anything else gains one layer with the given message, around the same cause. |
| GoErrors.Is | coinmiddleware/kafkaconsumer.go:98 | `errors.Is` holds of an error and itself, and of an error built by `errors.New` only for that same allocation: two distinct allocations never match, whatever their text. |
| GoErrors.WrapKeepsIdentity | coinmiddleware/kafkaconsumer.go:98 | `errors.Is` against a sentinel gives the same answer through a wrapping layer as on the wrapped error. |
| GoErrors.IsThroughChain | coinmiddleware/kafkaconsumer.go:98 | `errors.Is` follows the chain of causes: an error that wraps one that is, or wraps, the target is recognised, however deep the wrapping. |
| Utils.Min | utils/helpers.go:80-85 | The minimum is one of its two arguments. |
| Utils.MinIsLowerBound | utils/helpers.go:80-85 | Where `<` is irreflexive and asymmetric on the two arguments, neither argument is below the minimum. |
| Utils.MinTieTakesSecond | utils/helpers.go:80-85 | When neither argument is below the other, `Min` returns the second one. |
| Utils.MinOfIntegers | utils/helpers.go:80-85 | On integers the minimum is at most both arguments and equal to one of them. |
| Utils.CharsetIsAlphanumeric | utils/helpers.go:17 | The charset has 62 characters, all of them letters or decimal digits. |
| Utils.GenerateRandomString | utils/helpers.go:16-23 | The string has exactly the requested length. Every character is alphanumeric. Character i is the charset entry at the i-th random draw. |
| Utils.DrawsFor | utils/helpers.go:16-23 | Every alphanumeric string is a possible output: there are valid draws that produce it character by character. |
| Utils.PbToEthermanDeposit | utils/helpers.go:31-50 | nil maps to nil and only nil does. The leaf type keeps its value modulo 256, and is unchanged below 256. Network ids, deposit count, block number and ready flag carry over unchanged. Texts go through the foreign parsers, and an amount that does not parse stays nil. Time and id keep Go's zero values. |
| Utils.EthermanDepositToPbTransaction | utils/helpers.go:52-73 | nil maps to nil and only nil does. From- and to-chain are the network ids modulo 2^32, unchanged below 2^32. Index, block number, id and leaf type carry over unchanged. The time is the millisecond count modulo 2^64. The metadata has length 2+2n, starts with "0x", continues with lower-case hex digits only, and decodes back to the bytes. Bridge token and destination address are the printed original and destination addresses, the hash is the printed transaction hash, and the token amount is "<nil>" for a nil amount and the foreign decimal printing of any other. From- and to-chain ids are the foreign chain ids of the two networks. |
| Utils.MetadataText | utils/helpers.go:68 | `"0x"` plus the hex of n bytes has length 2+2n. Every character after the prefix is a lower-case hex digit, and the tail decodes back to the bytes. |
| Utils.DepositToTransaction | utils/helpers.go:31-73 | Taken through both conversions, a protobuf deposit keeps its network ids, index and block number. Its leaf type keeps only the low eight bits. The unset time becomes 2^64 - 62135596800000. An unparsable amount becomes "<nil>". |
| Hex.Encode | utils/helpers.go:68 | The encoding of n bytes has 2n characters, all lower-case hex digits. |
| Hex.DecodeEncode | utils/helpers.go:68 | Decoding the encoding gives back the bytes: two digits per byte, high nibble first, nothing lost. |
| Hex.EncodeDecode | utils/helpers.go:68 | Every even-length string of lower-case hex digits is the encoding of exactly the bytes it decodes to. |
| GoInts.ToUint8 | utils/helpers.go:37 | `uint8(x)` is the residue of x modulo 256, equal to x when x fits. |
| GoInts.ToUint32 | utils/helpers.go:58-59 | `uint32(x)` is the residue of x modulo 2^32, equal to x when x fits. |
| GoInts.ToUint64 | utils/helpers.go:62 | `uint64(x)` is the residue of x modulo 2^64. It equals x when x fits, and x + 2^64 for a negative int64. |

## Left out

- `Close` (coinmiddleware/kafkaconsumer.go:110-113) returns whatever the client's `Close` returns and has no logic of its own. Its effect on a running `Start` appears in the model as a step whose `Consume` error is `ErrClosedConsumerGroup`.
- The concurrency between `Close` and a running `Start`, and between the per-partition handler goroutines, has no sequential contract. It is not modelled.
- `context.WithCancel` and the deferred `cancel` are not modelled as objects. Until `Start` returns, the derived context's error is the parent's, and that error is what each script step gives.
- sarama's consumer group (joining, rebalancing, partition claims, the real `Consume` I/O) is not part of this model. `NewConsumerGroup` is a parameter and `Consume` is the script. Only the configuration fields the consumer sets are modelled, not the rest of `sarama.Config`.
- x509 PEM parsing and TLS negotiation are not modelled. Whether the embedded certificate parses is a boolean, and the certificate text is not reproduced.
- `NewMessageHandler` and `redisstorage` are not part of this model. The handler is recorded only as bound to the storage it was given.
- Logging calls are not modelled.
- `GenerateRandomHash` is SHA-256 over a random string and has no statable output property. `GenerateTraceID` depends on `traceIDLen`, which is not part of this model.
- `common.HexToAddress`, `common.HexToHash`, `common.FromHex`, `Address.Hex`, `Hash.String`, `(*big.Int).SetString`, the decimal printing of a non-nil `*big.Int` and `GetChainIdByNetworkId` are uninterpreted functions in `Foreign`. Only the nil `*big.Int` printing `<nil>` is fixed.
- Utils.PbToEthermanDeposit: on a 32-bit platform Go's `uint` is 32 bits wide, and `uint(pbDeposit.DepositCnt)`, from a `uint64`, would truncate; the `uint32` network ids would not. Only the 64-bit case is modelled.
- Utils.GenerateRandomString: takes a natural length. Go's `make` panics on a negative length, so that case is excluded rather than modelled.
- Utils.Min: Go's `constraints.Ordered` `<` is passed as a function. Floating-point NaN and signed zeros are covered only through that function's values, not by a float type.
- GoErrors.Wrap: `github.com/pkg/errors` wraps in two layers (message and stack). Both are one `Wrapped` layer here, which `errors.Is` sees through in the same way. Error texts and stack traces are not modelled.
- GoErrors.Is: only follows the chain of wrapped causes. Custom `Is` methods and joined errors are not modelled, and none occur in the code modelled here. Wrapped values are compared by structure, whereas Go compares the pointers pkg/errors allocates, so two separate `Wrap` calls with the same cause and message match here but not in Go; the code only ever tests against an `errors.New` sentinel, which is compared by identity.
- Hex.Decode accepts upper-case digits like `hex.DecodeString`, but folds its two error kinds (odd length, invalid byte) into `None`. It is used only as the partner of the encoder.
