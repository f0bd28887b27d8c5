/** The coin-middleware Kafka consumer: how `NewKafkaConsumer` turns its
    configuration into a sarama client configuration, and the policy by which
    `Start` keeps calling the consumer group's `Consume` until something ends
    the loop.

    Everything sarama, x509 and the context package do on their own is an
    input here: whether the embedded root certificate parses, what
    `sarama.NewConsumerGroup` returns, and, for each call of `Consume`, the
    error it returns and the context's error observed right after it. */
module KafkaConsumer {
  import opened Wrappers
  import opened GoErrors
  import opened GoInts

  // ---------------------------------------------------------------------------
  // Configuration
  // ---------------------------------------------------------------------------

  /** The consumer's configuration, as `NewKafkaConsumer` reads it. */
  datatype Config = Config(
    brokers: seq<string>,
    consumerGroupId: string,
    topics: seq<string>,
    username: string,
    password: string,
    initialOffset: int64)

  /** The only certificate the consumer ever trusts: the Aliyun root CA
      embedded in the binary. */
  datatype TrustAnchor = EmbeddedRootCA

  /** An `x509.CertPool`, by the anchors appended to it. */
  datatype CertPool = CertPool(anchors: seq<TrustAnchor>)

  /** The pool built from the embedded root CA. */
  const RootPool := CertPool([EmbeddedRootCA])

  /** The part of a `tls.Config` the consumer sets. */
  datatype TlsSettings = TlsSettings(rootCAs: CertPool, insecureSkipVerify: bool)

  /** `config.Net.SASL`. */
  datatype SaslConfig = SaslConfig(enable: bool, user: string, password: string)

  /** `config.Net.TLS`; `settings` is the `*tls.Config`, nil when unset. */
  datatype TlsConfig = TlsConfig(enable: bool, settings: Option<TlsSettings>)

  /** The part of a `sarama.Config` the consumer sets. */
  datatype SaramaConfig = SaramaConfig(initialOffset: int64, sasl: SaslConfig, tls: TlsConfig)

  /** `sarama.OffsetNewest`, the initial offset `sarama.NewConfig` starts from. */
  const OffsetNewest: int64 := -1

  /** The fields of `sarama.NewConfig()` that the consumer may change. */
  const DefaultSaramaConfig := SaramaConfig(OffsetNewest, SaslConfig(false, "", ""), TlsConfig(false, None))

  /** Identity of the error `NewKafkaConsumer` allocates when the root CA does not parse. */
  const AppendCertsErrorId: nat := 1

  const AppendCertsError := Fundamental(AppendCertsErrorId, "NewKafkaConsumer caCertPool.AppendCertsFromPEM")

  const GroupInitMsg := "kafka consumer group init error"

  /** Both credentials are given: the condition for SASL and TLS. */
  predicate HasCredentials(cfg: Config)
  {
    cfg.username != "" && cfg.password != ""
  }

  /** The configuration `NewKafkaConsumer` hands to `sarama.NewConsumerGroup`,
      or the error it returns when the embedded root CA does not parse.
      `rootCAParses` is the result of `AppendCertsFromPEM`. */
  function BuildConfig(cfg: Config, rootCAParses: bool): (r: Result<SaramaConfig, Error>)
    // the only failure: credentials given and the root CA rejected
    ensures r.Failure? <==> HasCredentials(cfg) && !rootCAParses
    ensures r.Failure? ==> r.error == AppendCertsError
    // the initial offset is copied whatever else happens
    ensures r.Success? ==> r.value.initialOffset == cfg.initialOffset
    // SASL exactly when both credentials are non-empty, and TLS exactly with SASL
    ensures r.Success? ==> (r.value.sasl.enable <==> HasCredentials(cfg))
    ensures r.Success? ==> (r.value.tls.enable <==> r.value.sasl.enable)
    ensures r.Success? && r.value.sasl.enable ==>
      r.value.sasl.user == cfg.username && r.value.sasl.password == cfg.password
    // when TLS is on, peers are trusted through the embedded root CA, and
    // certificate verification is nevertheless switched off
    ensures r.Success? && r.value.tls.enable ==>
      r.value.tls.settings == Some(TlsSettings(RootPool, true))
    // without credentials nothing but the offset differs from sarama's defaults
    ensures r.Success? && !HasCredentials(cfg) ==>
      r.value == DefaultSaramaConfig.(initialOffset := cfg.initialOffset)
  {
    var plain := DefaultSaramaConfig.(initialOffset := cfg.initialOffset);
    if !HasCredentials(cfg) then
      Success(plain)
    else if !rootCAParses then
      Failure(AppendCertsError)
    else
      Success(plain.(sasl := SaslConfig(true, cfg.username, cfg.password),
                     tls := TlsConfig(true, Some(TlsSettings(RootPool, true)))))
  }

  // ---------------------------------------------------------------------------
  // Construction
  // ---------------------------------------------------------------------------

  /** The handler `NewMessageHandler` builds, by the storage it is bound to. */
  datatype MessageHandler<S> = MessageHandler(storage: S)

  /** A constructed consumer: its topics, its sarama consumer group `client`
      and its message handler. */
  datatype Consumer<C, S> = Consumer(topics: seq<string>, client: C, handler: MessageHandler<S>)

  /** `NewKafkaConsumer(cfg, storage)`. `newGroup` is `sarama.NewConsumerGroup`,
      called with the brokers, the group id and the built configuration. */
  function NewKafkaConsumer<C(==), S(==)>(
    cfg: Config,
    storage: S,
    rootCAParses: bool,
    newGroup: (seq<string>, string, SaramaConfig) -> Result<C, Error>): (r: Result<Consumer<C, S>, Error>)
    // a root CA that does not parse aborts before any client exists
    ensures HasCredentials(cfg) && !rootCAParses ==> r.Failure? && r.error == AppendCertsError
    // otherwise the group is created from the brokers, the group id and the built configuration
    ensures BuildConfig(cfg, rootCAParses).Success? ==>
      var group := newGroup(cfg.brokers, cfg.consumerGroupId, BuildConfig(cfg, rootCAParses).value);
      && (r.Success? <==> group.Success?)
      && (group.Failure? ==> r.error == Wrapped(group.error, GroupInitMsg))
      && (group.Success? ==> r.value.client == group.value)
    // a consumer keeps the configured topics unchanged and a handler bound to the storage
    ensures r.Success? ==> r.value.topics == cfg.topics && r.value.handler == MessageHandler(storage)
  {
    match BuildConfig(cfg, rootCAParses)
    case Failure(e) => Failure(e)
    case Success(config) =>
      match newGroup(cfg.brokers, cfg.consumerGroupId, config)
      case Failure(e) => Failure(Wrapped(e, GroupInitMsg))
      case Success(client) => Success(Consumer(cfg.topics, client, MessageHandler(storage)))
  }

  /** A failed root CA is reported before `sarama.NewConsumerGroup` is consulted:
      no two group constructors can tell the outcome apart. */
  lemma RootCAFailureCreatesNoGroup<C, S>(
    cfg: Config, storage: S,
    g1: (seq<string>, string, SaramaConfig) -> Result<C, Error>,
    g2: (seq<string>, string, SaramaConfig) -> Result<C, Error>)
    requires HasCredentials(cfg)
    ensures NewKafkaConsumer(cfg, storage, false, g1) == NewKafkaConsumer(cfg, storage, false, g2)
    ensures NewKafkaConsumer(cfg, storage, false, g1) == Failure(AppendCertsError)
  {
  }

  // ---------------------------------------------------------------------------
  // The consume loop
  // ---------------------------------------------------------------------------

  /** Identity of `sarama.ErrClosedConsumerGroup`. */
  const ClosedConsumerGroupId: nat := 0

  /** `sarama.ErrClosedConsumerGroup`, what `Consume` returns once the group is closed. */
  const ErrClosedConsumerGroup := Fundamental(ClosedConsumerGroupId, "kafka: tried to use a consumer group that was closed")

  const ConsumerErrorMsg := "kafka consumer error"
  const CtxErrorMsg := "kafka consumer ctx error"

  /** One pass of the loop as the environment decides it: the error `Consume`
      returns, and `ctx.Err()` as it stands when `Consume` has returned. */
  datatype Step = Step(consumeErr: GoError, ctxErr: GoError)

  /** How `Start` stands once the script is used up: it returned `err`, or it
      is still looping, waiting for a next `Consume` to return. */
  datatype Outcome = Returned(err: GoError) | Looping

  /** A run of `Start`: how it stands, and the topic list passed to each call
      of `Consume`, in order. */
  datatype Run = Run(outcome: Outcome, calls: seq<seq<string>>)

  /** The step ends the loop: `Consume` failed, or the context is done. */
  predicate Ends(s: Step)
  {
    s.consumeErr.Some? || s.ctxErr.Some?
  }

  /** The step is a clean close: `Consume` failed with an error that is, or
      wraps, `sarama.ErrClosedConsumerGroup`. */
  predicate IsCleanClose(s: Step)
  {
    s.consumeErr.Some? && Is(s.consumeErr.value, ErrClosedConsumerGroup)
  }

  /** `c.Start(ctx)` driven by `script`, one step per call of `Consume`. */
  function Start<C, S>(c: Consumer<C, S>, script: seq<Step>): (r: Run)
    // never more calls than the environment has answers for
    ensures |r.calls| <= |script|
    // the context is only read after a call: a non-empty script always gets one
    ensures |script| > 0 ==> |r.calls| >= 1
    // still looping only when every answer has been consumed
    ensures r.outcome.Looping? ==> |r.calls| == |script|
    // every call passes the configured topics, unchanged
    ensures forall i :: 0 <= i < |r.calls| ==> r.calls[i] == c.topics
    decreases |script|
  {
    if |script| == 0 then
      Run(Looping, [])
    else
      var step := script[0];
      if step.consumeErr.Some? then
        var err := if Is(step.consumeErr.value, ErrClosedConsumerGroup) then None else step.consumeErr;
        Run(Returned(Wrap(err, ConsumerErrorMsg)), [c.topics])
      else if step.ctxErr.Some? then
        Run(Returned(Wrap(step.ctxErr, CtxErrorMsg)), [c.topics])
      else
        var rest := Start(c, script[1..]);
        Run(rest.outcome, [c.topics] + rest.calls)
  }

  /** Index of the first step of `script` that ends the loop, if any. */
  function FirstEnd(script: seq<Step>): (k: Option<nat>)
    ensures k.Some? ==> k.value < |script| && Ends(script[k.value])
    ensures k.Some? ==> forall j :: 0 <= j < k.value ==> !Ends(script[j])
    ensures k.None? ==> forall j :: 0 <= j < |script| ==> !Ends(script[j])
    decreases |script|
  {
    if |script| == 0 then None
    else if Ends(script[0]) then Some(0)
    else
      match FirstEnd(script[1..])
      case None => None
      case Some(k) => Some(k + 1)
  }

  /** `FirstEnd` picks out the unique first ending step. */
  lemma FirstEndIsUnique(script: seq<Step>, k: nat)
    requires k < |script| && Ends(script[k])
    requires forall j :: 0 <= j < k ==> !Ends(script[j])
    ensures FirstEnd(script) == Some(k)
  {
  }

  /** The central shape of the loop: `Start` makes one call per step up to and
      including the first ending step, returns what that step alone decides,
      and keeps looping through a script with no ending step. */
  lemma {:induction false} StartStopsAtFirstEnd<C, S>(c: Consumer<C, S>, script: seq<Step>)
    ensures FirstEnd(script).None? <==> Start(c, script).outcome.Looping?
    ensures FirstEnd(script).Some? ==>
      var k := FirstEnd(script).value;
      |Start(c, script).calls| == k + 1 && Start(c, script).outcome == Start(c, [script[k]]).outcome
    ensures FirstEnd(script).None? ==> |Start(c, script).calls| == |script|
    decreases |script|
  {
    if |script| > 0 && !Ends(script[0]) {
      StartStopsAtFirstEnd(c, script[1..]);
      if FirstEnd(script[1..]).Some? {
        var k := FirstEnd(script[1..]).value;
        assert FirstEnd(script) == Some(k + 1);
        assert script[1..][k] == script[k + 1];
      }
    }
  }

  /** A close of the consumer group, seen at step `k` even through wrapping,
      ends `Start` with nil after exactly `k + 1` calls. */
  lemma ClosedGroupEndsCleanly<C, S>(c: Consumer<C, S>, script: seq<Step>, k: nat)
    requires k < |script| && forall j :: 0 <= j < k ==> !Ends(script[j])
    requires IsCleanClose(script[k])
    ensures Start(c, script).outcome == Returned(None)
    ensures |Start(c, script).calls| == k + 1
  {
    FirstEndIsUnique(script, k);
    StartStopsAtFirstEnd(c, script);
  }

  /** Any other error from `Consume` at step `k` ends `Start` at once with that
      error wrapped, after exactly `k + 1` calls: no retry, whatever the context. */
  lemma FatalErrorIsNotRetried<C, S>(c: Consumer<C, S>, script: seq<Step>, k: nat, e: Error)
    requires k < |script| && forall j :: 0 <= j < k ==> !Ends(script[j])
    requires script[k].consumeErr == Some(e) && !Is(e, ErrClosedConsumerGroup)
    ensures Start(c, script).outcome == Returned(Some(Wrapped(e, ConsumerErrorMsg)))
    ensures |Start(c, script).calls| == k + 1
  {
    FirstEndIsUnique(script, k);
    StartStopsAtFirstEnd(c, script);
  }

  /** A clean return from `Consume` with the context done at step `k` ends
      `Start` with the context's error wrapped, after exactly `k + 1` calls. */
  lemma CancelledContextIsSurfaced<C, S>(c: Consumer<C, S>, script: seq<Step>, k: nat, e: Error)
    requires k < |script| && forall j :: 0 <= j < k ==> !Ends(script[j])
    requires script[k].consumeErr.None? && script[k].ctxErr == Some(e)
    ensures Start(c, script).outcome == Returned(Some(Wrapped(e, CtxErrorMsg)))
    ensures |Start(c, script).calls| == k + 1
  {
    FirstEndIsUnique(script, k);
    StartStopsAtFirstEnd(c, script);
  }

  /** While `Consume` keeps returning nil and the context stays alive, `Start`
      calls `Consume` again after every step. */
  lemma AliveContextKeepsConsuming<C, S>(c: Consumer<C, S>, script: seq<Step>)
    requires forall j :: 0 <= j < |script| ==> !Ends(script[j])
    ensures Start(c, script).outcome == Looping
    ensures |Start(c, script).calls| == |script|
  {
    StartStopsAtFirstEnd(c, script);
  }

  /** `Start` returns nil exactly when the step that ends it is a clean close:
      a clean close is never reported as an error, and nothing else is
      reported as success. */
  lemma NilOnlyOnCleanClose<C, S>(c: Consumer<C, S>, script: seq<Step>)
    ensures Start(c, script).outcome == Returned(None) <==>
      FirstEnd(script).Some? && IsCleanClose(script[FirstEnd(script).value])
  {
    StartStopsAtFirstEnd(c, script);
  }

  /** Once `Start` has returned, it makes no further call: whatever the
      environment would have answered next changes nothing. */
  lemma {:induction false} NoCallAfterReturn<C, S>(c: Consumer<C, S>, script: seq<Step>, later: seq<Step>)
    requires Start(c, script).outcome.Returned?
    ensures Start(c, script + later) == Start(c, script)
    decreases |script|
  {
    assert (script + later)[0] == script[0];
    if !Ends(script[0]) {
      assert (script + later)[1..] == script[1..] + later;
      NoCallAfterReturn(c, script[1..], later);
    }
  }

  /** The context is only consulted after a `Consume` that returned nil: two
      scripts that differ only in the context's state after failed calls
      drive `Start` identically. */
  lemma {:induction false} ContextReadOnlyAfterCleanConsume<C, S>(c: Consumer<C, S>, s: seq<Step>, t: seq<Step>)
    requires |s| == |t|
    requires forall j :: 0 <= j < |s| ==> s[j].consumeErr == t[j].consumeErr
    requires forall j :: 0 <= j < |s| ==> s[j].consumeErr.None? ==> s[j].ctxErr == t[j].ctxErr
    ensures Start(c, s) == Start(c, t)
    decreases |s|
  {
    if |s| > 0 && s[0].consumeErr.None? && s[0].ctxErr.None? {
      ContextReadOnlyAfterCleanConsume(c, s[1..], t[1..]);
    }
  }
}
