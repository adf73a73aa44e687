/**
 The reference Agent's MCP transport: a tenant command is encoded as tool arguments, decoded by
 the adapter, passed by the host under a ready manifest, and rebuilt as a command by the Agent
 client; the transport keeps the successful steps and makes a receipt of them.
 */
module AgentTransport {
  import opened Options
  import opened Identifiers

  /** Property names; any other name is `Other`. */
  datatype Field =
    | SchemaVersion | OperationId | Payload | RequestId | CorrelationId | Resource | IdempotencyKey
    | ResourceId | ResourceType | CreditOfferId | ObligationId | ProviderId | ProviderCategory | Limit | Cursor
    | AcknowledgementHash | ExpectedOfferHash | ExpectedTermsHash | AmountMinor | SourceCode
    | Other(name: string)

  /** Plain data; a property may be present with the value `undefined`. */
  datatype Value = Undefined | Null | Number(n: int) | Text(s: string) | Object(fields: map<Field, Value>)

  datatype Operation = AcceptOffer | ExecuteObligation | PostRepayment | ReadEvidence

  const SCHEMA: string := "tenant_protocol_request.v1"

  function NameOf(op: Operation): string {
    match op
    case AcceptOffer => "pilotAcceptCreditOffer"
    case ExecuteObligation => "pilotExecuteSandboxObligation"
    case PostRepayment => "pilotPostSandboxRepayment"
    case ReadEvidence => "pilotReadOwnObligationEvidence"
  }

  function ToolOf(op: Operation): string {
    match op
    case AcceptOffer => "ipo_one_accept_credit_offer"
    case ExecuteObligation => "ipo_one_execute_sandbox_obligation"
    case PostRepayment => "ipo_one_post_sandbox_repayment"
    case ReadEvidence => "ipo_one_read_obligation_evidence"
  }

  function ResourceTypeOf(op: Operation): string {
    match op
    case AcceptOffer => "credit_offer"
    case ReadEvidence => "evidence"
    case _ => "obligation"
  }

  function Named(name: string): Option<Operation> {
    if name == NameOf(AcceptOffer) then Some(AcceptOffer)
    else if name == NameOf(ExecuteObligation) then Some(ExecuteObligation)
    else if name == NameOf(PostRepayment) then Some(PostRepayment)
    else if name == NameOf(ReadEvidence) then Some(ReadEvidence)
    else None
  }

  /** The transport's table lookup. */
  function OperationOf(command: Value): Option<Operation> {
    if command.Object? && OperationId in command.fields && command.fields[OperationId].Text?
    then Named(command.fields[OperationId].s)
    else None
  }

  // ---------------------------------------------------------------------------------------
  // Identifiers

  predicate Identifier(s: string) {
    1 <= |s| <= 256 && Alphanumeric(s[0]) && forall i :: 0 < i < |s| ==> Alphanumeric(s[i]) || s[i] in ":._/%-"
  }

  predicate RequestText(s: string, least: nat, most: nat) {
    least <= |s| <= most && |s| > 0 && Alphanumeric(s[0]) && forall i :: 0 < i < |s| ==>
        Alphanumeric(s[i]) || s[i] in "._:-"
  }

  predicate Category(s: string) {
    2 <= |s| <= 96 && 'a' <= s[0] <= 'z' &&
    forall i :: 0 < i < |s| ==> 'a' <= s[i] <= 'z' || '0' <= s[i] <= '9' || s[i] in "_.-"
  }

  // ---------------------------------------------------------------------------------------
  // Encoding

  function RequiredPayload(op: Operation): set<Field> {
    match op
    case AcceptOffer => {AcknowledgementHash, ExpectedOfferHash, ExpectedTermsHash}
    case ExecuteObligation => {ProviderCategory, ProviderId}
    case PostRepayment => {AmountMinor, SourceCode}
    case ReadEvidence => {Limit}
  }

  function OptionalPayload(op: Operation): set<Field> {
    if op == ReadEvidence then {Cursor} else {}
  }

  predicate ExactKeys(v: Value, required: set<Field>, optional: set<Field>) {
    v.Object? && required <= v.fields.Keys <= required + optional
  }

  predicate Idempotent(op: Operation) { op != ReadEvidence }

  function RootKeys(op: Operation): set<Field> {
    {CorrelationId, OperationId, Payload, RequestId, Resource, SchemaVersion} +
    if Idempotent(op) then {IdempotencyKey} else {}
  }

  /** What the encoder checks of a command. */
  predicate Encodable(command: Value, op: Operation) {
    && ExactKeys(command, RootKeys(op), {})
    && var f := command.fields;
    && f[SchemaVersion] == Text(SCHEMA)
    && f[RequestId].Text? && RequestText(f[RequestId].s, 8, 128)
    && f[CorrelationId].Text? && RequestText(f[CorrelationId].s, 8, 128)
    && (Idempotent(op) ==> f[IdempotencyKey].Text? && RequestText(f[IdempotencyKey].s, 16, 256))
    && ExactKeys(f[Resource], {ResourceId, ResourceType}, {})
    && f[Resource].fields[ResourceType] == Text(ResourceTypeOf(op))
    && f[Resource].fields[ResourceId].Text? && Identifier(f[Resource].fields[ResourceId].s)
    && ExactKeys(f[Payload], RequiredPayload(op), OptionalPayload(op))
  }

  function Arguments(command: Value, op: Operation): map<Field, Value>
    requires Encodable(command, op)
  {
    var f := command.fields;
    var resource, payload := f[Resource].fields[ResourceId], f[Payload];
    match op
    case AcceptOffer =>
      map[CreditOfferId := resource, Payload := payload, IdempotencyKey := f[IdempotencyKey],
          RequestId := f[RequestId], CorrelationId := f[CorrelationId]]
    case ExecuteObligation =>
      map[ObligationId := resource, ProviderId := payload.fields[ProviderId],
          ProviderCategory := payload.fields[ProviderCategory],
          IdempotencyKey := f[IdempotencyKey], RequestId := f[RequestId], CorrelationId := f[CorrelationId]]
    case PostRepayment =>
      map[ObligationId := resource, Payload := payload, IdempotencyKey := f[IdempotencyKey],
          RequestId := f[RequestId], CorrelationId := f[CorrelationId]]
    case ReadEvidence =>
      var args := map[ObligationId := resource, Limit := payload.fields[Limit],
                      RequestId := f[RequestId], CorrelationId := f[CorrelationId]];
      if Cursor in payload.fields && payload.fields[Cursor] != Undefined
      then args[Cursor := payload.fields[Cursor]] else args
  }

  /** `runtimeMcpArguments`. */
  function Encode(command: Value): Option<(Operation, map<Field, Value>)> {
    var op :- OperationOf(command);
    if Encodable(command, op) then Some((op, Arguments(command, op))) else None
  }

  // ---------------------------------------------------------------------------------------
  // Adapter, host and client

  /** The adapter's key checks for the four runtime tools. */
  function ToolKeys(op: Operation, args: map<Field, Value>): set<Field> {
    {RequestId, CorrelationId} +
    match op
    case AcceptOffer => {CreditOfferId, Payload, IdempotencyKey}
    case ExecuteObligation => {ObligationId, ProviderId, ProviderCategory, IdempotencyKey}
    case PostRepayment => {ObligationId, Payload, IdempotencyKey}
    case ReadEvidence =>
      if Cursor !in args || args[Cursor] == Undefined then {ObligationId, Limit} else {ObligationId, Limit, Cursor}
  }

  function ToolNamed(name: string): Option<Operation> {
    if name == ToolOf(AcceptOffer) then Some(AcceptOffer)
    else if name == ToolOf(ExecuteObligation) then Some(ExecuteObligation)
    else if name == ToolOf(PostRepayment) then Some(PostRepayment)
    else if name == ToolOf(ReadEvidence) then Some(ReadEvidence)
    else None
  }

  /** `callTool` for the runtime tools: the client method it picks. */
  function CallTool(name: string, args: Value): Option<Operation> {
    var op :- ToolNamed(name);
    if !args.Object? || args.fields.Keys != ToolKeys(op, args.fields) then None
    else if op in {AcceptOffer, PostRepayment} && !ExactKeys(args.fields[Payload], RequiredPayload(op), {}) then None
    else Some(op)
  }

  function Defined(m: map<Field, Value>): map<Field, Value> {
    map k | k in m && m[k] != Undefined :: m[k]
  }

  /** A command without its payload. */
  function Envelope(op: Operation, resource: Value, request: Value, correlation: Value,
                    key: Value): map<Field, Value> {
    var f := map[SchemaVersion := Text(SCHEMA), OperationId := Text(NameOf(op)),
                 Resource := Object(map[ResourceType := Text(ResourceTypeOf(op)), ResourceId := resource]),
                 RequestId := request, CorrelationId := correlation];
    if Idempotent(op) then f[IdempotencyKey := key] else f
  }

  /** A tenant command from its parts; a query has no idempotency key. */
  function CommandOf(op: Operation, payload: Value, resource: Value, request: Value, correlation: Value,
                     key: Value): Value {
    Object(Envelope(op, resource, request, correlation, key)[Payload := payload])
  }

  function PayloadOf(op: Operation, args: map<Field, Value>): Value
    requires args.Keys == ToolKeys(op, args)
  {
    match op
    case ExecuteObligation => Object(map[ProviderId := args[ProviderId], ProviderCategory := args[ProviderCategory]])
    case ReadEvidence =>
      Object(Defined(if Cursor in args then map[Limit := args[Limit], Cursor := args[Cursor]]
                     else map[Limit := args[Limit]]))
    case _ => args[Payload]
  }

  /** A command before its schema version is put on. */
  function Unversioned(command: Value): Value
    requires command.Object?
  {
    Object(command.fields - {SchemaVersion})
  }

  /** What the Agent client's method makes of the arguments, apart from the schema version. */
  function Rebuild(op: Operation, args: map<Field, Value>): Value
    requires args.Keys == ToolKeys(op, args)
  {
    CommandOf(op, PayloadOf(op, args), args[if op == AcceptOffer then CreditOfferId else ObligationId],
              args[RequestId], args[CorrelationId], if Idempotent(op) then args[IdempotencyKey] else Undefined)
  }

  /** The command that reaches the Agent client's `execute`, if any does. That function puts on
      the schema version, adds a confirmation and checks the request before any gateway sees it. */
  function Delivered(command: Value, ready: bool): Option<Value> {
    var encoded :- Encode(command);
    var op :- CallTool(ToolOf(encoded.0), Object(encoded.1));
    if !ready then None else Some(Unversioned(Rebuild(op, encoded.1)))
  }

  // ---------------------------------------------------------------------------------------
  // The round trip

  /** A command without the `undefined` properties an evidence query may carry. */
  function Normal(command: Value, op: Operation): Value
    requires command.Object? && Payload in command.fields && command.fields[Payload].Object?
  {
    if op != ReadEvidence then command
    else Object(command.fields[Payload := Object(Defined(command.fields[Payload].fields))])
  }

  lemma NamesDiffer()
    ensures forall op :: Named(NameOf(op)) == Some(op) && ToolNamed(ToolOf(op)) == Some(op)
  {
    forall op ensures Named(NameOf(op)) == Some(op) && ToolNamed(ToolOf(op)) == Some(op) {
      NameLengths(op);
      NameLengths(AcceptOffer);
      NameLengths(ExecuteObligation);
      NameLengths(PostRepayment);
      NameLengths(ReadEvidence);
      hide NameOf, ToolOf;
    }
  }

  /** The names already differ in length. */
  lemma NameLengths(op: Operation)
    ensures op == AcceptOffer ==> |NameOf(op)| == 22 && |ToolOf(op)| == 27
    ensures op == ExecuteObligation ==> |NameOf(op)| == 29 && |ToolOf(op)| == 34
    ensures op == PostRepayment ==> |NameOf(op)| == 25 && |ToolOf(op)| == 30
    ensures op == ReadEvidence ==> |NameOf(op)| == 30 && |ToolOf(op)| == 32
  {
  }

  lemma OperationNamed(command: Value, op: Operation)
    requires OperationOf(command) == Some(op)
    ensures OperationId in command.fields && command.fields[OperationId] == Text(NameOf(op))
  {
  }

  lemma ArgumentKeys(command: Value, op: Operation)
    requires Encodable(command, op)
    ensures Arguments(command, op).Keys == ToolKeys(op, Arguments(command, op))
    ensures op in {AcceptOffer, PostRepayment} ==> ExactKeys(Arguments(command, op)[Payload], RequiredPayload(op), {})
  {
    hide RequestText, Identifier, ResourceTypeOf;
    var args := Arguments(command, op);
    match op
    case AcceptOffer => assert args.Keys == {CreditOfferId, Payload, IdempotencyKey, RequestId, CorrelationId};
    case ExecuteObligation =>
      assert args.Keys == {ObligationId, ProviderId, ProviderCategory, IdempotencyKey, RequestId, CorrelationId};
    case PostRepayment => assert args.Keys == {ObligationId, Payload, IdempotencyKey, RequestId, CorrelationId};
    case ReadEvidence =>
  }

  /** The adapter accepts whatever the encoder produces. */
  lemma AdapterAccepts(command: Value)
    requires Encode(command).Some?
    ensures var e := Encode(command).value;
            && OperationOf(command) == Some(e.0) && Encodable(command, e.0) && e.1 == Arguments(command, e.0)
            && e.1.Keys == ToolKeys(e.0, e.1) && CallTool(ToolOf(e.0), Object(e.1)) == Some(e.0)
  {
    NamesDiffer();
    hide Named, NameOf, RequestText, Identifier, ToolKeys, Encodable, Arguments, OperationOf, ToolNamed, ToolOf;
    ArgumentKeys(command, OperationOf(command).value);
  }

  /** Every command the transport encodes reaches the client's `execute` as it was under a ready
      manifest, save for `undefined` in an evidence query's payload; without one nothing does. */
  lemma RoundTrip(command: Value)
    ensures Delivered(command, false) == None
    ensures Encode(command).None? ==> Delivered(command, true) == None
    ensures Encode(command).Some? ==>
              Delivered(command, true) == Some(Unversioned(Normal(command, OperationOf(command).value)))
  {
    if Encode(command).Some? {
      AdapterAccepts(command);
      var op := Encode(command).value.0;
      RebuildsNormal(command, op);
    }
  }

  function KeyOf(command: Value, op: Operation): Value
    requires Encodable(command, op)
  {
    if Idempotent(op) then command.fields[IdempotencyKey] else Undefined
  }

  /** An encodable command has exactly the parts the client puts together. */
  lemma Canonical(command: Value, op: Operation)
    requires OperationOf(command) == Some(op) && Encodable(command, op)
    ensures var f := command.fields;
            command == CommandOf(op, f[Payload], f[Resource].fields[ResourceId], f[RequestId], f[CorrelationId],
                                 KeyOf(command, op))
  {
    OperationNamed(command, op);
    hide Named, NameOf, RequestText, Identifier, OperationOf, ResourceTypeOf, RequiredPayload, OptionalPayload;
    var f := command.fields;
    TwoFields(f[Resource].fields);
    FromFields(f, op, KeyOf(command, op));
  }

  lemma TwoFields(f: map<Field, Value>)
    requires f.Keys == {ResourceId, ResourceType}
    ensures f == map[ResourceType := f[ResourceType], ResourceId := f[ResourceId]]
  {
  }

  lemma FromFields(f: map<Field, Value>, op: Operation, key: Value)
    requires f.Keys == RootKeys(op) && (Idempotent(op) ==> f[IdempotencyKey] == key)
    requires f[SchemaVersion] == Text(SCHEMA) && f[OperationId] == Text(NameOf(op)) && f[Resource].Object? &&
             ResourceId in f[Resource].fields
    requires f[Resource] == Object(map[ResourceType := Text(ResourceTypeOf(op)),
                                       ResourceId := f[Resource].fields[ResourceId]])
    ensures Object(f) == CommandOf(op, f[Payload], f[Resource].fields[ResourceId], f[RequestId], f[CorrelationId], key)
  {
    hide NameOf, ResourceTypeOf;
    var g := CommandOf(op, f[Payload], f[Resource].fields[ResourceId], f[RequestId], f[CorrelationId], key).fields;
    assert g.Keys == RootKeys(op);
    assert forall k :: k in g ==> g[k] == f[k];
    assert g == f;
  }

  lemma PayloadReplaced(op: Operation, p: Value, q: Value, resource: Value, request: Value, correlation: Value,
                        key: Value)
    ensures CommandOf(op, p, resource, request, correlation, key).fields[Payload := q] ==
            CommandOf(op, q, resource, request, correlation, key).fields
  {
    hide Envelope;
  }

  lemma ProviderPayload(command: Value)
    requires Encodable(command, ExecuteObligation)
    requires Arguments(command, ExecuteObligation).Keys ==
             ToolKeys(ExecuteObligation, Arguments(command, ExecuteObligation))
    ensures PayloadOf(ExecuteObligation, Arguments(command, ExecuteObligation)) == command.fields[Payload]
  {
    hide NameOf, RequestText, Identifier, ResourceTypeOf, ToolKeys;
    var p := command.fields[Payload].fields;
    assert p == map[ProviderId := p[ProviderId], ProviderCategory := p[ProviderCategory]];
  }

  lemma EvidencePayload(command: Value)
    requires Encodable(command, ReadEvidence)
    requires Arguments(command, ReadEvidence).Keys == ToolKeys(ReadEvidence, Arguments(command, ReadEvidence))
    ensures PayloadOf(ReadEvidence, Arguments(command, ReadEvidence)) == Object(Defined(command.fields[Payload].fields))
  {
    hide NameOf, RequestText, Identifier, ResourceTypeOf, ToolKeys;
    var p := command.fields[Payload].fields;
    var q := PayloadOf(ReadEvidence, Arguments(command, ReadEvidence)).fields;
    assert forall k :: k in q <==> k in p && p[k] != Undefined;
    assert q == Defined(p);
  }

  lemma RebuildsNormal(command: Value, op: Operation)
    requires OperationOf(command) == Some(op) && Encodable(command, op)
    requires Arguments(command, op).Keys == ToolKeys(op, Arguments(command, op))
    ensures Rebuild(op, Arguments(command, op)) == Normal(command, op)
  {
    Canonical(command, op);
    match op {
      case ExecuteObligation => ProviderPayload(command);
      case ReadEvidence => EvidencePayload(command);
      case _ =>
    }
    assert KeyOf(command, op) == if Idempotent(op) then command.fields[IdempotencyKey] else Undefined;
    var f := command.fields;
    PayloadReplaced(op, f[Payload], PayloadOf(op, Arguments(command, op)), f[Resource].fields[ResourceId], f[RequestId],
                    f[CorrelationId], KeyOf(command, op));
    SamePart(command, op);
    hide CommandOf, Encodable, Arguments, OperationOf, ToolKeys, PayloadOf, Defined;
  }

  /** The arguments hold the command's identifiers unchanged. */
  lemma SamePart(command: Value, op: Operation)
    requires Encodable(command, op) && Arguments(command, op).Keys == ToolKeys(op, Arguments(command, op))
    ensures var f, args := command.fields, Arguments(command, op);
            && Payload in f && RequestId in f && CorrelationId in f && Resource in f && f[Payload].Object?
            && f[Resource].Object? && ResourceId in f[Resource].fields
            && args[if op == AcceptOffer then CreditOfferId else ObligationId] == f[Resource].fields[ResourceId]
            && args[RequestId] == f[RequestId] && args[CorrelationId] == f[CorrelationId]
            && (Idempotent(op) ==> args[IdempotencyKey] == KeyOf(command, op))
            && (op in {AcceptOffer, PostRepayment} ==> PayloadOf(op, args) == f[Payload])
  {
    hide RequestText, Identifier, ResourceTypeOf, NameOf;
  }

  /** Delivery is exact precisely when no payload property of an evidence query is undefined. */
  lemma ExactDelivery(command: Value)
    requires Encode(command).Some?
    ensures Delivered(command, true) == Some(Unversioned(command)) <==>
              (OperationOf(command) == Some(ReadEvidence) ==> Undefined !in command.fields[Payload].fields.Values)
  {
    AdapterAccepts(command);
    RoundTrip(command);
    hide Encode, Encodable, OperationOf, Delivered;
    if OperationOf(command) == Some(ReadEvidence) { NormalExactly(command); }
  }

  lemma DefinedExactly(p: map<Field, Value>)
    ensures Defined(p) == p <==> Undefined !in p.Values
  {
    if k :| k in p && p[k] == Undefined { assert k !in Defined(p); }
  }

  lemma NormalExactly(command: Value)
    requires command.Object? && Payload in command.fields && command.fields[Payload].Object?
    ensures Unversioned(Normal(command, ReadEvidence)) == Unversioned(command) <==>
              Undefined !in command.fields[Payload].fields.Values
  {
    var p := command.fields[Payload].fields;
    DefinedExactly(p);
    hide Defined;
    assert Unversioned(Normal(command, ReadEvidence)).fields[Payload] == Object(Defined(p));
    assert Unversioned(command).fields[Payload] == Object(p);
    if Defined(p) == p { assert command.fields[Payload := Object(p)] == command.fields; }
  }

  // ---------------------------------------------------------------------------------------
  // The workflows' own commands

  lemma CommandKeys(op: Operation, payload: Value, resource: Value, request: Value, correlation: Value, key: Value)
    ensures CommandOf(op, payload, resource, request, correlation, key).Object?
    ensures CommandOf(op, payload, resource, request, correlation, key).fields.Keys == RootKeys(op)
  {
    hide NameOf, ResourceTypeOf;
  }

  lemma CommandNames(op: Operation, payload: Value, resource: Value, request: Value, correlation: Value, key: Value)
    ensures var f := CommandOf(op, payload, resource, request, correlation, key).fields;
            && OperationId in f && SchemaVersion in f && Resource in f
            && f[OperationId] == Text(NameOf(op)) && f[SchemaVersion] == Text(SCHEMA)
            && f[Resource] == Object(map[ResourceType := Text(ResourceTypeOf(op)), ResourceId := resource])
  {
    hide NameOf, ResourceTypeOf;
  }

  lemma CommandValues(op: Operation, payload: Value, resource: Value, request: Value, correlation: Value, key: Value)
    ensures var f := CommandOf(op, payload, resource, request, correlation, key).fields;
            && Payload in f && RequestId in f && CorrelationId in f && (Idempotent(op) ==> IdempotencyKey in f)
            && f[Payload] == payload && f[RequestId] == request && f[CorrelationId] == correlation
            && (Idempotent(op) ==> f[IdempotencyKey] == key)
  {
    hide NameOf, ResourceTypeOf;
  }

  lemma CommandFields(op: Operation, payload: Value, resource: Value, request: Value, correlation: Value, key: Value)
    ensures CommandOf(op, payload, resource, request, correlation, key).Object?
    ensures var f := CommandOf(op, payload, resource, request, correlation, key).fields;
            && f.Keys == RootKeys(op) && f[OperationId] == Text(NameOf(op)) && f[SchemaVersion] == Text(SCHEMA)
            && f[Payload] == payload && f[RequestId] == request && f[CorrelationId] == correlation
            && (Idempotent(op) ==> f[IdempotencyKey] == key)
            && f[Resource] == Object(map[ResourceType := Text(ResourceTypeOf(op)), ResourceId := resource])
  {
    CommandKeys(op, payload, resource, request, correlation, key);
    CommandNames(op, payload, resource, request, correlation, key);
    CommandValues(op, payload, resource, request, correlation, key);
    hide NameOf, ResourceTypeOf, RootKeys, CommandOf;
  }

  /** A command put together from its parts is encodable exactly when the parts are well formed. */
  lemma EncodableParts(op: Operation, payload: Value, resource: string, request: string, correlation: string,
                       key: string)
    ensures var command := CommandOf(op, payload, Text(resource), Text(request), Text(correlation), Text(key));
            Encode(command).Some? <==>
              && Identifier(resource) && RequestText(request, 8, 128) && RequestText(correlation, 8, 128)
              && (Idempotent(op) ==> RequestText(key, 16, 256))
              && ExactKeys(payload, RequiredPayload(op), OptionalPayload(op))
  {
    NamesDiffer();
    hide Named, NameOf, RequestText, Identifier, ResourceTypeOf, RequiredPayload, OptionalPayload, Arguments;
    var command := CommandOf(op, payload, Text(resource), Text(request), Text(correlation), Text(key));
    CommandFields(op, payload, Text(resource), Text(request), Text(correlation), Text(key));
    hide CommandOf;
    assert command.fields[Resource].fields.Keys == {ResourceId, ResourceType};
    assert OperationOf(command) == Some(op);
    hide OperationOf, RootKeys;
  }

  predicate RequestChar(c: char) { Alphanumeric(c) || c in "._:-" }

  /** A mandate's workflow suffix: 24 characters of its hash. */
  predicate Suffix(s: string) {
    |s| == 24 && forall i :: 0 <= i < |s| ==> '0' <= s[i] <= '9' || 'a' <= s[i] <= 'f'
  }

  /** The identifiers both workflows derive from the suffix are well formed, whatever fixed text
      of request characters surrounds it. */
  lemma DerivedIdentifier(prefix: string, suffix: string, tail: string)
    requires Suffix(suffix) && 1 <= |prefix| && Alphanumeric(prefix[0]) && |prefix| + |tail| <= 104
    requires forall i :: 0 <= i < |prefix| ==> RequestChar(prefix[i])
    requires forall i :: 0 <= i < |tail| ==> RequestChar(tail[i])
    ensures RequestText(prefix + suffix + tail, 8, 128) && RequestText(prefix + suffix + tail, 16, 256)
  {
    var s := prefix + suffix + tail;
    forall i | 0 < i < |s| ensures RequestChar(s[i]) {
      if i < |prefix| { assert s[i] == prefix[i]; }
      else if i < |prefix| + 24 { assert s[i] == suffix[i - |prefix|]; }
      else { assert s[i] == tail[i - |prefix| - 24]; }
    }
  }

  /** What a workflow is given: the mandate's suffix, the offer, the amount to repay and the
      manifest's first provider and category. */
  datatype Deal = Deal(
    suffix: string, offer: string, offerHash: string, termsHash: string, acknowledgement: string, amount: string,
    provider: string, category: string)

  function AcceptPayload(d: Deal): Value {
    Object(map[ExpectedOfferHash := Text(d.offerHash), ExpectedTermsHash := Text(d.termsHash),
               AcknowledgementHash := Text(d.acknowledgement)])
  }

  function UsePayload(d: Deal): Value {
    Object(map[ProviderId := Text(d.provider), ProviderCategory := Text(d.category)])
  }

  function RepaymentPayload(d: Deal): Value {
    Object(map[AmountMinor := Text(d.amount), SourceCode := Text("synthetic_revenue")])
  }

  function EvidencePage(): Value {
    Object(map[Limit := Number(50)])
  }

  lemma PayloadsExact(d: Deal)
    ensures ExactKeys(AcceptPayload(d), RequiredPayload(AcceptOffer), OptionalPayload(AcceptOffer))
    ensures ExactKeys(UsePayload(d), RequiredPayload(ExecuteObligation), OptionalPayload(ExecuteObligation))
    ensures ExactKeys(RepaymentPayload(d), RequiredPayload(PostRepayment), OptionalPayload(PostRepayment))
    ensures ExactKeys(EvidencePage(), RequiredPayload(ReadEvidence), OptionalPayload(ReadEvidence))
  {
  }

  /** The identifiers of the runtime workflow, and those of the evidence reads and the metered
      workflow. */
  function ColonId(kind: string, suffix: string, step: string): string {
    kind + "_agent_obligation:local-agent-obligation-" + suffix + (":" + step)
  }

  function DashId(kind: string, flow: string, suffix: string, tail: string): string {
    kind + "-agent-" + flow + "-" + suffix + tail
  }

  /** The commands of a workflow; the later ones name the obligation. */
  datatype Plan = Plan(accept: Value, execute: string -> Value, repay: string -> Value, evidence: string -> Value)

  function RuntimeCommand(d: Deal, op: Operation, payload: Value, resource: string, step: string): Value {
    CommandOf(op, payload, Text(resource), Text(ColonId("request", d.suffix, step)),
              Text(ColonId("correlation", d.suffix, "credit")), Text(ColonId("idempotency", d.suffix, step)))
  }

  function MeteredCommand(d: Deal, op: Operation, payload: Value, resource: string, step: string): Value {
    CommandOf(op, payload, Text(resource), Text(DashId("request", "metered", d.suffix, step)),
              Text(DashId("correlation", "metered", d.suffix, "")),
              Text(DashId("idempotency", "metered", d.suffix, step)))
  }

  /** The runtime workflow's commands: the client's three, then the evidence query. */
  function RuntimePlan(d: Deal): Plan {
    Plan(RuntimeCommand(d, AcceptOffer, AcceptPayload(d), d.offer, "01"),
         (o: string) => RuntimeCommand(d, ExecuteObligation, UsePayload(d), o, "02"),
         (o: string) => RuntimeCommand(d, PostRepayment, RepaymentPayload(d), o, "03"),
         (o: string) => CommandOf(ReadEvidence, EvidencePage(), Text(o),
                                  Text(DashId("request", "evidence", d.suffix, "")),
                                  Text(DashId("correlation", "evidence", d.suffix, "")), Undefined))
  }

  /** The metered workflow's commands; step 03 is the evidence query beside the transport. */
  function MeteredPlan(d: Deal): Plan {
    Plan(MeteredCommand(d, AcceptOffer, AcceptPayload(d), d.offer, "-01"),
         (o: string) => MeteredCommand(d, ExecuteObligation, UsePayload(d), o, "-02"),
         (o: string) => MeteredCommand(d, PostRepayment, RepaymentPayload(d), o, "-04"),
         (o: string) => MeteredCommand(d, ReadEvidence, EvidencePage(), o, "-05"))
  }

  function MeteredQuery(d: Deal, o: string): Value {
    MeteredCommand(d, ReadEvidence, EvidencePage(), o, "-03")
  }

  ghost predicate Proper(plan: Plan) {
    && OperationOf(plan.accept) == Some(AcceptOffer)
    && forall o: string ::
         && OperationOf(plan.execute(o)) == Some(ExecuteObligation)
         && OperationOf(plan.repay(o)) == Some(PostRepayment)
         && OperationOf(plan.evidence(o)) == Some(ReadEvidence)
  }

  lemma OperationOfCommand(op: Operation, payload: Value, resource: Value, request: Value, correlation: Value,
                           key: Value)
    ensures OperationOf(CommandOf(op, payload, resource, request, correlation, key)) == Some(op)
  {
    NamesDiffer();
    CommandFields(op, payload, resource, request, correlation, key);
    hide Named, NameOf, CommandOf;
  }

  lemma PlansProper(d: Deal)
    ensures Proper(RuntimePlan(d)) && Proper(MeteredPlan(d))
  {
    hide CommandOf, OperationOf;
    forall op, payload, resource, request, correlation, key
      ensures OperationOf(CommandOf(op, payload, resource, request, correlation, key)) == Some(op)
    {
      OperationOfCommand(op, payload, resource, request, correlation, key);
    }
  }

  predicate RequestChars(s: string) {
    forall i :: 0 <= i < |s| ==> RequestChar(s[i])
  }

  lemma KindTexts(request: string, correlation: string, idempotency: string)
    requires request == "request" && correlation == "correlation" && idempotency == "idempotency"
    ensures RequestChars(request) && RequestChars(correlation) && RequestChars(idempotency)
  {
  }

  lemma FlowTexts(colon: string, agent: string, evidence: string, metered: string)
    requires colon == "_agent_obligation:local-agent-obligation-" && agent == "-agent-"
    requires evidence == "evidence" && metered == "metered"
    ensures RequestChars(colon) && RequestChars(agent) && RequestChars(evidence) && RequestChars(metered)
  {
  }

  predicate Kind(s: string) {
    1 <= |s| <= 11 && RequestChars(s) && Alphanumeric(s[0])
  }

  lemma Kinds()
    ensures Kind("request") && Kind("correlation") && Kind("idempotency")
  {
    KindTexts("request", "correlation", "idempotency");
    hide RequestChars;
  }

  /** The identifiers the workflows build from the mandate's suffix are well formed. */
  lemma ColonIdentifier(kind: string, suffix: string, step: string)
    requires Suffix(suffix) && Kind(kind) && |step| <= 8 && RequestChars(step)
    ensures RequestText(ColonId(kind, suffix, step), 8, 128) && RequestText(ColonId(kind, suffix, step), 16, 256)
  {
    FlowTexts("_agent_obligation:local-agent-obligation-", "-agent-", "evidence", "metered");
    var prefix := kind + "_agent_obligation:local-agent-obligation-";
    DerivedIdentifier(prefix, suffix, ":" + step);
  }

  lemma DashIdentifier(kind: string, flow: string, suffix: string, tail: string)
    requires Suffix(suffix) && Kind(kind) && flow in {"evidence", "metered"} && |tail| <= 8 && RequestChars(tail)
    ensures RequestText(DashId(kind, flow, suffix, tail), 8, 128) &&
            RequestText(DashId(kind, flow, suffix, tail), 16, 256)
  {
    FlowTexts("_agent_obligation:local-agent-obligation-", "-agent-", "evidence", "metered");
    var prefix := kind + "-agent-" + flow + "-";
    DerivedIdentifier(prefix, suffix, tail);
  }

  lemma RuntimeEncodes(d: Deal, op: Operation, payload: Value, resource: string, step: string)
    requires Suffix(d.suffix) && |step| <= 8 && RequestChars(step) &&
             ExactKeys(payload, RequiredPayload(op), OptionalPayload(op))
    ensures Encode(RuntimeCommand(d, op, payload, resource, step)).Some? <==> Identifier(resource)
  {
    Kinds();
    ColonIdentifier("request", d.suffix, step);
    ColonIdentifier("idempotency", d.suffix, step);
    assert RequestChars("credit");
    ColonIdentifier("correlation", d.suffix, "credit");
    hide ColonId, Encode, CommandOf, RequestText, Identifier, Kind, RequestChars, ExactKeys;
    EncodableParts(op, payload, resource, ColonId("request", d.suffix, step),
                   ColonId("correlation", d.suffix, "credit"),
                   ColonId("idempotency", d.suffix, step));
  }

  lemma MeteredEncodes(d: Deal, op: Operation, payload: Value, resource: string, step: string)
    requires Suffix(d.suffix) && |step| <= 8 && RequestChars(step) &&
             ExactKeys(payload, RequiredPayload(op), OptionalPayload(op))
    ensures Encode(MeteredCommand(d, op, payload, resource, step)).Some? <==> Identifier(resource)
  {
    Kinds();
    DashIdentifier("request", "metered", d.suffix, step);
    DashIdentifier("idempotency", "metered", d.suffix, step);
    assert RequestChars("");
    DashIdentifier("correlation", "metered", d.suffix, "");
    hide DashId, Encode, CommandOf, RequestText, Identifier, Kind, RequestChars, ExactKeys;
    EncodableParts(op, payload, resource, DashId("request", "metered", d.suffix, step),
                   DashId("correlation", "metered", d.suffix, ""),
                   DashId("idempotency", "metered", d.suffix, step));
  }

  lemma EvidenceEncodes(d: Deal, o: string)
    requires Suffix(d.suffix)
    ensures Encode(RuntimePlan(d).evidence(o)).Some? <==> Identifier(o)
  {
    PayloadsExact(d);
    Kinds();
    assert RequestChars("");
    DashIdentifier("request", "evidence", d.suffix, "");
    DashIdentifier("correlation", "evidence", d.suffix, "");
    var request := DashId("request", "evidence", d.suffix, "");
    var correlation := DashId("correlation", "evidence", d.suffix, "");
    assert CommandOf(ReadEvidence, EvidencePage(), Text(o), Text(request), Text(correlation), Undefined) ==
           CommandOf(ReadEvidence, EvidencePage(), Text(o), Text(request), Text(correlation), Text(""));
    hide DashId, Encode, CommandOf, RequestText, Identifier, Kind, RequestChars, ExactKeys;
    EncodableParts(ReadEvidence, EvidencePage(), o, request, correlation, "");
  }

  lemma StepTexts(a: string, b: string, c: string)
    requires a in {"01", "-01"} && b in {"02", "03", "-02", "-03"} && c in {"-04", "-05", "credit"}
    ensures RequestChars(a) && RequestChars(b) && RequestChars(c)
  {
  }

  /** Each command of the runtime workflow can be encoded exactly when the offer, or the
      obligation it names, has a well-formed id. */
  lemma RuntimePlanEncodes(d: Deal, o: string)
    requires Suffix(d.suffix)
    ensures var plan := RuntimePlan(d);
            && (Encode(plan.accept).Some? <==> Identifier(d.offer))
            && (Encode(plan.execute(o)).Some? <==> Identifier(o))
            && (Encode(plan.repay(o)).Some? <==> Identifier(o))
            && (Encode(plan.evidence(o)).Some? <==> Identifier(o))
  {
    PayloadsExact(d);
    StepTexts("01", "02", "-04");
    StepTexts("01", "03", "-04");
    hide Encode, Identifier, RequestChars, Suffix, ExactKeys, RuntimeCommand;
    RuntimeEncodes(d, AcceptOffer, AcceptPayload(d), d.offer, "01");
    RuntimeEncodes(d, ExecuteObligation, UsePayload(d), o, "02");
    RuntimeEncodes(d, PostRepayment, RepaymentPayload(d), o, "03");
    EvidenceEncodes(d, o);
  }

  /** And so each command of the metered one. */
  lemma MeteredPlanEncodes(d: Deal, o: string)
    requires Suffix(d.suffix)
    ensures var plan := MeteredPlan(d);
            && (Encode(plan.accept).Some? <==> Identifier(d.offer))
            && (Encode(plan.execute(o)).Some? <==> Identifier(o))
            && (Encode(MeteredQuery(d, o)).Some? <==> Identifier(o))
            && (Encode(plan.repay(o)).Some? <==> Identifier(o))
            && (Encode(plan.evidence(o)).Some? <==> Identifier(o))
  {
    PayloadsExact(d);
    StepTexts("-01", "-02", "-04");
    StepTexts("-01", "-03", "-05");
    hide Encode, Identifier, RequestChars, Suffix, ExactKeys, MeteredCommand;
    MeteredEncodes(d, AcceptOffer, AcceptPayload(d), d.offer, "-01");
    MeteredEncodes(d, ExecuteObligation, UsePayload(d), o, "-02");
    MeteredEncodes(d, ReadEvidence, EvidencePage(), o, "-03");
    MeteredEncodes(d, PostRepayment, RepaymentPayload(d), o, "-04");
    MeteredEncodes(d, ReadEvidence, EvidencePage(), o, "-05");
  }

  // ---------------------------------------------------------------------------------------
  // The transport's record of successful calls

  /** A tool's structured result, reduced to what the transport and the workflows look at. */
  datatype Result = Result(operation: string, replayed: bool, schemaVersion: string, obligation: string)

  /** What the host's handler comes back with; `content` is there when it is a valid protocol
      result. */
  datatype Reply =
    | HostThrew
    | Reply(rpc: bool, id: Value, error: bool, isError: Option<bool>, content: Option<Result>)

  datatype StepRecord = StepRecord(sequence: nat, operation: Operation, request: Value, replayed: bool,
      schemaVersion: string)

  datatype Receipt = Receipt(obligation: string, provider: string, category: string, steps: seq<StepRecord>)

  /** The reply the caller accepts: the right id, no error, and the operation it asked for. */
  predicate Accepted(command: Value, op: Operation, reply: Reply)
    requires Encodable(command, op)
  {
    && reply.Reply? && reply.rpc && reply.id == Text("rpc_agent_runtime:" + command.fields[RequestId].s)
    && !reply.error && reply.isError == Some(false) && reply.content.Some? &&
        reply.content.value.operation == NameOf(op)
  }

  /** A call that succeeds. */
  predicate Succeeds(command: Value, reply: Reply) {
    var e := Encode(command);
    e.Some? && Accepted(command, e.value.0, reply)
  }

  const LIFECYCLE: seq<Operation> := [AcceptOffer, ExecuteObligation, PostRepayment, ReadEvidence]

  function Operations(steps: seq<StepRecord>): seq<Operation> {
    seq(|steps|, i requires 0 <= i < |steps| => steps[i].operation)
  }

  predicate Targets(obligation: string, provider: string, category: string) {
    Identifier(obligation) && Identifier(provider) && Category(category)
  }

  lemma EncodedName(command: Value)
    requires Encode(command).Some?
    ensures command.Object? && OperationId in command.fields && RequestId in command.fields &&
            command.fields[RequestId].Text?
    ensures command.fields[OperationId] == Text(NameOf(Encode(command).value.0))
  {
    hide NameOf, RequestText, Identifier, Arguments;
  }

  class Transport {
    var steps: seq<StepRecord>

    /** Steps are numbered from one. */
    predicate Valid()
      reads this
    {
      forall i :: 0 <= i < |steps| ==> steps[i].sequence == i + 1
    }

    constructor ()
      ensures Valid() && steps == []
    {
      steps := [];
    }

    /** A call; `reply` is what the host answers to the encoded command. */
    method Execute(command: Value, reply: Reply) returns (r: Option<Result>)
      requires Valid()
      modifies this
      ensures Valid()
      ensures r.Some? <==> Succeeds(command, reply)
      ensures r.Some? <==>
        && Encode(command).Some? && reply.Reply? && reply.rpc && !reply.error && reply.isError == Some(false)
        && reply.id == Text("rpc_agent_runtime:" + command.fields[RequestId].s)
        && reply.content.Some? && Text(reply.content.value.operation) == command.fields[OperationId]
      ensures r.Some? ==>
        && r == reply.content
        && steps == old(steps) + [StepRecord(|old(steps)| + 1, OperationOf(command).value, command.fields[RequestId],
                                             r.value.replayed, r.value.schemaVersion)]
      ensures r.None? ==> steps == old(steps)
    {
      if Encode(command).Some? { EncodedName(command); }
      var e := Encode(command);
      if e.None? || !Accepted(command, e.value.0, reply) { return None; }
      var result := reply.content.value;
      steps := steps +
        [StepRecord(|steps| + 1, e.value.0, command.fields[RequestId], result.replayed, result.schemaVersion)];
      return Some(result);
    }

    /** A receipt exists exactly for the four lifecycle operations in their order. */
    method CreateReceipt(obligation: string, provider: string, category: string) returns (r: Option<Receipt>)
      requires Valid()
      ensures r.Some? <==>
        && Identifier(obligation) && Identifier(provider) && Category(category)
        && Operations(steps) == [AcceptOffer, ExecuteObligation, PostRepayment, ReadEvidence]
      ensures r.Some? ==> r.value == Receipt(obligation, provider, category, steps)
    {
      if !Targets(obligation, provider, category) || |steps| != |LIFECYCLE| { return None; }
      for i := 0 to |steps|
        invariant forall k :: 0 <= k < i ==> steps[k].operation == LIFECYCLE[k]
      {
        if steps[i].operation != LIFECYCLE[i] {
          assert Operations(steps)[i] != LIFECYCLE[i];
          return None;
        }
      }
      assert Operations(steps) == LIFECYCLE;
      return Some(Receipt(obligation, provider, category, steps));
    }
  }

  // ---------------------------------------------------------------------------------------
  // The two runtime workflows

  /** The host's answer to the n-th call of a workflow, and the workflow's own checks of it. */
  datatype World = World(host: (nat, Value) -> Reply, passes: (nat, Result) -> bool)

  predicate Passes(w: World, n: nat, command: Value) {
    Succeeds(command, w.host(n, command)) && w.passes(n, w.host(n, command).content.value)
  }

  function ObligationIn(w: World, n: nat, command: Value): string
    requires Passes(w, n, command)
  {
    w.host(n, command).content.value.obligation
  }

  /** Every call of the runtime workflow succeeds. */
  predicate RuntimeSucceeds(d: Deal, w: World) {
    var plan := RuntimePlan(d);
    && Passes(w, 1, plan.accept)
    && var o := ObligationIn(w, 1, plan.accept);
    && Passes(w, 2, plan.execute(o)) && Passes(w, 3, plan.repay(o))
    && Passes(w, 4, plan.evidence(ObligationIn(w, 3, plan.repay(o))))
  }

  /** The metered workflow has an admission and one more evidence read, on a transport of its
      own, between execution and repayment. */
  predicate MeteredSucceeds(d: Deal, w: World, admitted: bool) {
    var plan := MeteredPlan(d);
    && Passes(w, 1, plan.accept)
    && var o := ObligationIn(w, 1, plan.accept);
    && Passes(w, 2, plan.execute(o)) && admitted && Passes(w, 3, MeteredQuery(d, o))
    && Passes(w, 4, plan.repay(o)) && Passes(w, 5, plan.evidence(o))
  }

  /** The n-th call of a workflow, on its transport, with the workflow's own checks. */
  method Call(t: Transport, w: World, n: nat, command: Value) returns (r: Option<Result>)
    requires t.Valid()
    modifies t
    ensures t.Valid()
    ensures r.Some? <==> Passes(w, n, command)
    ensures r.Some? ==> r.value.obligation == ObligationIn(w, n, command)
    ensures r.Some? ==> Operations(t.steps) == Operations(old(t.steps)) + [OperationOf(command).value]
  {
    r := t.Execute(command, w.host(n, command));
    if r.Some? && !w.passes(n, r.value) { r := None; }
  }

  /** `runLocalAgentRuntimeWorkflow`: it ends with a receipt exactly when all its calls succeed
      and the caller's provider and category are well formed; the evidence read has already
      checked the obligation's id. */
  method RunRuntimeWorkflow(d: Deal, w: World) returns (receipt: Option<Receipt>)
    ensures receipt.Some? <==>
              RuntimeSucceeds(d, w) && Identifier(d.provider) && Category(d.category)
    ensures receipt.Some? ==>
      var plan := RuntimePlan(d);
      && Operations(receipt.value.steps) == [AcceptOffer, ExecuteObligation, PostRepayment, ReadEvidence]
      && receipt.value.obligation == ObligationIn(w, 3, plan.repay(ObligationIn(w, 1, plan.accept)))
      && receipt.value.provider == d.provider && receipt.value.category == d.category
  {
    PlansProper(d);
    hide OperationOf, Identifier, Category, Passes, Operations, ObligationIn, RuntimePlan;
    var plan := RuntimePlan(d);
    var t := new Transport();
    NoOperations();
    var r1 := Call(t, w, 1, plan.accept);
    if r1.None? { return None; }
    var o := r1.value.obligation;
    var r2 := Call(t, w, 2, plan.execute(o));
    if r2.None? { return None; }
    var r3 := Call(t, w, 3, plan.repay(o));
    if r3.None? { return None; }
    var r4 := Call(t, w, 4, plan.evidence(r3.value.obligation));
    if r4.None? { return None; }
    RuntimeQueryNames(d, w, 4, r3.value.obligation);
    receipt := t.CreateReceipt(r3.value.obligation, d.provider, d.category);
  }

  /** A command that was encoded names a well-formed resource. */
  lemma EncodedNames(op: Operation, payload: Value, resource: string, request: string, correlation: string, key: Value)
    requires Encode(CommandOf(op, payload, Text(resource), Text(request), Text(correlation), key)).Some?
    ensures Identifier(resource)
  {
    OperationOfCommand(op, payload, Text(resource), Text(request), Text(correlation), key);
    CommandFields(op, payload, Text(resource), Text(request), Text(correlation), key);
    hide CommandOf, OperationOf, Identifier, RequestText, RootKeys;
  }

  lemma RuntimeQueryNames(d: Deal, w: World, n: nat, o: string)
    requires Passes(w, n, RuntimePlan(d).evidence(o))
    ensures Identifier(o)
  {
    hide Identifier, Encode, DashId;
    EncodedNames(ReadEvidence, EvidencePage(), o, DashId("request", "evidence", d.suffix, ""),
                 DashId("correlation", "evidence", d.suffix, ""), Undefined);
  }

  lemma MeteredQueryNames(d: Deal, w: World, n: nat, o: string)
    requires Passes(w, n, MeteredPlan(d).evidence(o))
    ensures Identifier(o)
  {
    hide Identifier, Encode, DashId;
    EncodedNames(ReadEvidence, EvidencePage(), o, DashId("request", "metered", d.suffix, "-05"),
                 DashId("correlation", "metered", d.suffix, ""),
                 Text(DashId("idempotency", "metered", d.suffix, "-05")));
  }

  lemma NoOperations()
    ensures Operations([]) == []
  {
  }

  /** `runLocalAgentMeteredRuntimeWorkflow`: likewise; its extra evidence read does not disturb
      the receipt. */
  method RunMeteredWorkflow(d: Deal, w: World, admitted: bool) returns (receipt: Option<Receipt>)
    ensures receipt.Some? <==>
              MeteredSucceeds(d, w, admitted) && Identifier(d.provider) && Category(d.category)
    ensures receipt.Some? ==>
      && Operations(receipt.value.steps) == [AcceptOffer, ExecuteObligation, PostRepayment, ReadEvidence]
      && receipt.value.obligation == ObligationIn(w, 1, MeteredPlan(d).accept)
      && receipt.value.provider == d.provider && receipt.value.category == d.category
  {
    PlansProper(d);
    hide OperationOf, Identifier, Category, Passes, Operations, ObligationIn, MeteredPlan;
    var plan := MeteredPlan(d);
    var t := new Transport();
    NoOperations();
    var r1 := Call(t, w, 1, plan.accept);
    if r1.None? { return None; }
    var o := r1.value.obligation;
    var r2 := Call(t, w, 2, plan.execute(o));
    if r2.None? || !admitted { return None; }
    var aside := new Transport();
    var r3 := Call(aside, w, 3, MeteredQuery(d, o));
    if r3.None? { return None; }
    var r4 := Call(t, w, 4, plan.repay(o));
    if r4.None? { return None; }
    var r5 := Call(t, w, 5, plan.evidence(o));
    if r5.None? { return None; }
    MeteredQueryNames(d, w, 5, o);
    receipt := t.CreateReceipt(o, d.provider, d.category);
  }
}
