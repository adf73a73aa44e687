/**
 The reference transport's messages as they are on the wire: which commands are encoded, which
 tool each calls with which arguments, and what the two workflows say in each of their commands.
 */
module CommandWire {
  import opened Options
  import opened AgentTransport

  predicate HasText(f: map<Field, Value>, k: Field, s: string) {
    k in f && f[k] == Text(s)
  }

  /** A command of the named operation: its resource and payload are of the operation's kind and
      have the operation's properties and no others. */
  predicate Speaks(command: Value, name: string, resourceType: string, required: set<Field>, optional: set<Field>) {
    && command.Object? && HasText(command.fields, OperationId, name)
    && HasText(command.fields, SchemaVersion, "tenant_protocol_request.v1")
    && Resource in command.fields && command.fields[Resource].Object?
    && command.fields[Resource].fields.Keys == {ResourceId, ResourceType}
    && HasText(command.fields[Resource].fields, ResourceType, resourceType)
    && command.fields[Resource].fields[ResourceId].Text?
    && Identifier(command.fields[Resource].fields[ResourceId].s)
    && Payload in command.fields && command.fields[Payload].Object?
    && required <= command.fields[Payload].fields.Keys <= required + optional
  }

  predicate Identified(f: map<Field, Value>) {
    && RequestId in f && f[RequestId].Text? && RequestText(f[RequestId].s, 8, 128)
    && CorrelationId in f && f[CorrelationId].Text? && RequestText(f[CorrelationId].s, 8, 128)
  }

  predicate Keyed(f: map<Field, Value>) {
    && f.Keys == {CorrelationId, OperationId, Payload, RequestId, Resource, SchemaVersion, IdempotencyKey}
    && f[IdempotencyKey].Text? && RequestText(f[IdempotencyKey].s, 16, 256)
  }

  predicate Unkeyed(f: map<Field, Value>) {
    f.Keys == {CorrelationId, OperationId, Payload, RequestId, Resource, SchemaVersion}
  }

  predicate Accepting(c: Value) {
    && Speaks(c, "pilotAcceptCreditOffer", "credit_offer",
              {AcknowledgementHash, ExpectedOfferHash, ExpectedTermsHash}, {})
    && Identified(c.fields) && Keyed(c.fields)
  }

  predicate Executing(c: Value) {
    && Speaks(c, "pilotExecuteSandboxObligation", "obligation", {ProviderCategory, ProviderId}, {})
    && Identified(c.fields) && Keyed(c.fields)
  }

  predicate Repaying(c: Value) {
    && Speaks(c, "pilotPostSandboxRepayment", "obligation", {AmountMinor, SourceCode}, {})
    && Identified(c.fields) && Keyed(c.fields)
  }

  predicate Reading(c: Value) {
    && Speaks(c, "pilotReadOwnObligationEvidence", "evidence", {Limit}, {Cursor})
    && Identified(c.fields) && Unkeyed(c.fields)
  }

  predicate Fits(c: Value, op: Operation) {
    match op
    case AcceptOffer => Accepting(c)
    case ExecuteObligation => Executing(c)
    case PostRepayment => Repaying(c)
    case ReadEvidence => Reading(c)
  }

  lemma EncodableExactly(c: Value, op: Operation)
    ensures c.Object? && HasText(c.fields, OperationId, NameOf(op)) && Encodable(c, op) <==> Fits(c, op)
  {
    hide Identifier, RequestText;
    match op
    case AcceptOffer =>
    case ExecuteObligation =>
    case PostRepayment =>
    case ReadEvidence =>
  }

  lemma NamedExactly(c: Value, op: Operation)
    ensures OperationOf(c) == Some(op) <==> c.Object? && HasText(c.fields, OperationId, NameOf(op))
  {
    NamesDiffer();
    if OperationOf(c) == Some(op) { NamedBack(c.fields[OperationId].s, op); }
    hide Named, NameOf;
  }

  lemma NamedBack(name: string, op: Operation)
    requires Named(name) == Some(op)
    ensures name == NameOf(op)
  {
    hide NameOf;
  }

  /** A command is encoded exactly when it is one of the four, in full and nothing more. */
  lemma EncodesExactly(c: Value)
    ensures Encode(c).Some? <==> Accepting(c) || Executing(c) || Repaying(c) || Reading(c)
    ensures forall op :: Encode(c).Some? && Encode(c).value.0 == op ==> Fits(c, op)
  {
    hide Encodable, Arguments, OperationOf, NameOf, Accepting, Executing, Repaying, Reading;
    forall op
      ensures OperationOf(c) == Some(op) && Encodable(c, op) <==> Fits(c, op)
    {
      NamedExactly(c, op);
      EncodableExactly(c, op);
    }
    assert Fits(c, AcceptOffer) <==> Accepting(c);
    assert Fits(c, ExecuteObligation) <==> Executing(c);
    assert Fits(c, PostRepayment) <==> Repaying(c);
    assert Fits(c, ReadEvidence) <==> Reading(c);
  }

  /** The tool call made for a command: its name and its arguments. */
  ghost predicate Wired(c: Value, tool: string, args: map<Field, Value>) {
    && (Accepting(c) ==>
          tool == "ipo_one_accept_credit_offer" &&
          args == map[CreditOfferId := c.fields[Resource].fields[ResourceId], Payload := c.fields[Payload],
                      IdempotencyKey := c.fields[IdempotencyKey], RequestId := c.fields[RequestId],
                      CorrelationId := c.fields[CorrelationId]])
    && (Executing(c) ==>
          tool == "ipo_one_execute_sandbox_obligation" &&
          args == map[ObligationId := c.fields[Resource].fields[ResourceId],
                      ProviderId := c.fields[Payload].fields[ProviderId],
                      ProviderCategory := c.fields[Payload].fields[ProviderCategory],
                      IdempotencyKey := c.fields[IdempotencyKey], RequestId := c.fields[RequestId],
                      CorrelationId := c.fields[CorrelationId]])
    && (Repaying(c) ==>
          tool == "ipo_one_post_sandbox_repayment" &&
          args == map[ObligationId := c.fields[Resource].fields[ResourceId], Payload := c.fields[Payload],
                      IdempotencyKey := c.fields[IdempotencyKey], RequestId := c.fields[RequestId],
                      CorrelationId := c.fields[CorrelationId]])
    && (Reading(c) ==>
          var page := c.fields[Payload].fields;
          var plain := map[ObligationId := c.fields[Resource].fields[ResourceId], Limit := page[Limit],
                           RequestId := c.fields[RequestId], CorrelationId := c.fields[CorrelationId]];
          tool == "ipo_one_read_obligation_evidence" &&
          args == if Cursor in page && page[Cursor] != Undefined then plain[Cursor := page[Cursor]] else plain)
  }

  /** Every encoded command calls the operation's own tool with its own parts. */
  lemma WireExactly(c: Value)
    requires Encode(c).Some?
    ensures Wired(c, ToolOf(Encode(c).value.0), Encode(c).value.1)
  {
    EncodesExactly(c);
    AdapterAccepts(c);
    var op := Encode(c).value.0;
    hide Encode, Encodable, Identifier, RequestText;
    OneOperation(c);
    assert Fits(c, op);
  }

  /** The four operations have different names. */
  lemma OneOperation(c: Value)
    ensures forall op, other :: Fits(c, op) && Fits(c, other) ==> op == other
  {
    NamesDiffer();
    forall op, other | Fits(c, op) && Fits(c, other) ensures op == other {
      EncodableExactly(c, op);
      EncodableExactly(c, other);
      NamedExactly(c, op);
      NamedExactly(c, other);
    }
  }

  /** The adapter's own check, on any call: the tool's arguments and no others, a cursor only with
      a value, and a payload with the operation's properties. */
  predicate Callable(name: string, args: map<Field, Value>) {
    if name == "ipo_one_accept_credit_offer" then
      && args.Keys == {CreditOfferId, Payload, IdempotencyKey, RequestId, CorrelationId}
      && args[Payload].Object?
      && args[Payload].fields.Keys == {AcknowledgementHash, ExpectedOfferHash, ExpectedTermsHash}
    else if name == "ipo_one_execute_sandbox_obligation" then
      args.Keys == {ObligationId, ProviderId, ProviderCategory, IdempotencyKey, RequestId, CorrelationId}
    else if name == "ipo_one_post_sandbox_repayment" then
      && args.Keys == {ObligationId, Payload, IdempotencyKey, RequestId, CorrelationId}
      && args[Payload].Object? && args[Payload].fields.Keys == {AmountMinor, SourceCode}
    else if name == "ipo_one_read_obligation_evidence" then
      if Cursor in args && args[Cursor] != Undefined
      then args.Keys == {ObligationId, Limit, Cursor, RequestId, CorrelationId}
      else args.Keys == {ObligationId, Limit, RequestId, CorrelationId}
    else false
  }

  lemma AdapterExactly(name: string, args: map<Field, Value>)
    ensures CallTool(name, Object(args)).Some? <==> Callable(name, args)
  {
    ToolLengths();
  }

  /** The tools' names have different lengths. */
  lemma ToolLengths()
    ensures |ToolOf(AcceptOffer)| == 27 && |ToolOf(ExecuteObligation)| == 34
    ensures |ToolOf(PostRepayment)| == 30 && |ToolOf(ReadEvidence)| == 32
  {
  }

  // ---------------------------------------------------------------------------------------
  // What the workflows say

  /** A workflow's command, with its own identifiers; a query has no key. */
  predicate Says(c: Value, name: string, resourceType: string, resource: string, request: string, correlation: string,
                 key: Option<string>)
  {
    && c.Object? && HasText(c.fields, SchemaVersion, "tenant_protocol_request.v1")
    && HasText(c.fields, OperationId, name) && HasText(c.fields, RequestId, request)
    && HasText(c.fields, CorrelationId, correlation)
    && Resource in c.fields &&
       c.fields[Resource] == Object(map[ResourceType := Text(resourceType), ResourceId := Text(resource)])
    && Payload in c.fields
    && match key
       case Some(k) => HasText(c.fields, IdempotencyKey, k)
       case None => IdempotencyKey !in c.fields
  }

  predicate AcceptsOffer(payload: Value, d: Deal) {
    && payload.Object? && payload.fields.Keys == {ExpectedOfferHash, ExpectedTermsHash, AcknowledgementHash}
    && HasText(payload.fields, ExpectedOfferHash, d.offerHash)
    && HasText(payload.fields, ExpectedTermsHash, d.termsHash)
    && HasText(payload.fields, AcknowledgementHash, d.acknowledgement)
  }

  predicate UsesProvider(payload: Value, d: Deal) {
    && payload.Object? && payload.fields.Keys == {ProviderId, ProviderCategory}
    && HasText(payload.fields, ProviderId, d.provider) && HasText(payload.fields, ProviderCategory, d.category)
  }

  predicate Repays(payload: Value, d: Deal) {
    && payload.Object? && payload.fields.Keys == {AmountMinor, SourceCode}
    && HasText(payload.fields, AmountMinor, d.amount) && HasText(payload.fields, SourceCode, "synthetic_revenue")
  }

  predicate AsksFifty(payload: Value) {
    payload == Object(map[Limit := Number(50)])
  }

  lemma PayloadsSay(d: Deal)
    ensures AcceptsOffer(AcceptPayload(d), d) && UsesProvider(UsePayload(d), d) && Repays(RepaymentPayload(d), d)
    ensures AsksFifty(EvidencePage())
  {
  }

  lemma CommandSays(op: Operation, payload: Value, resource: string, request: string, correlation: string, key: Value)
    requires op != ReadEvidence ==> key.Text?
    ensures var c := CommandOf(op, payload, Text(resource), Text(request), Text(correlation), key);
            var k := if op == ReadEvidence then None else Some(key.s);
            && c.Object? && Payload in c.fields && c.fields[Payload] == payload
            && (op == AcceptOffer ==>
                  Says(c, "pilotAcceptCreditOffer", "credit_offer", resource, request, correlation, k))
            && (op == ExecuteObligation ==>
                  Says(c, "pilotExecuteSandboxObligation", "obligation", resource, request, correlation, k))
            && (op == PostRepayment ==>
                  Says(c, "pilotPostSandboxRepayment", "obligation", resource, request, correlation, k))
            && (op == ReadEvidence ==>
                  Says(c, "pilotReadOwnObligationEvidence", "evidence", resource, request, correlation, k))
  {
    CommandFields(op, payload, Text(resource), Text(request), Text(correlation), key);
    hide CommandOf;
  }

  /** The runtime workflow's identifiers: `request_agent_obligation:<workflow>:<step>` and the like. */
  function Numbered(kind: string, d: Deal, step: string): string {
    kind + "_agent_obligation:" + ("local-agent-obligation-" + d.suffix) + ":" + step
  }

  lemma ColonIs(kind: string, d: Deal, step: string)
    ensures ColonId(kind, d.suffix, step) == Numbered(kind, d, step)
  {
    assert "_agent_obligation:local-agent-obligation-" == "_agent_obligation:" + "local-agent-obligation-";
  }

  /** What the runtime workflow says: accept the offer, use the provider, repay the amount, read
      the evidence, in this order and about this obligation. */
  lemma RuntimeSays(d: Deal, o: string)
    ensures var plan, correlation := RuntimePlan(d), Numbered("correlation", d, "credit");
            && Says(plan.accept, "pilotAcceptCreditOffer", "credit_offer", d.offer, Numbered("request", d, "01"),
                    correlation, Some(Numbered("idempotency", d, "01")))
            && AcceptsOffer(plan.accept.fields[Payload], d)
            && Says(plan.execute(o), "pilotExecuteSandboxObligation", "obligation", o, Numbered("request", d, "02"),
                    correlation, Some(Numbered("idempotency", d, "02")))
            && UsesProvider(plan.execute(o).fields[Payload], d)
            && Says(plan.repay(o), "pilotPostSandboxRepayment", "obligation", o, Numbered("request", d, "03"),
                    correlation, Some(Numbered("idempotency", d, "03")))
            && Repays(plan.repay(o).fields[Payload], d)
            && Says(plan.evidence(o), "pilotReadOwnObligationEvidence", "evidence", o,
                    "request-agent-evidence-" + d.suffix, "correlation-agent-evidence-" + d.suffix, None)
            && AsksFifty(plan.evidence(o).fields[Payload])
  {
    PayloadsSay(d);
    EvidenceIds(d);
    RuntimeCommandSays(d, AcceptOffer, AcceptPayload(d), d.offer, "01");
    RuntimeCommandSays(d, ExecuteObligation, UsePayload(d), o, "02");
    RuntimeCommandSays(d, PostRepayment, RepaymentPayload(d), o, "03");
    CommandSays(ReadEvidence, EvidencePage(), o, DashId("request", "evidence", d.suffix, ""),
                DashId("correlation", "evidence", d.suffix, ""), Undefined);
    hide Says, CommandOf, AcceptsOffer, UsesProvider, Repays, AsksFifty, Numbered, RuntimeCommand, AcceptPayload,
         UsePayload, RepaymentPayload, EvidencePage, DashId;
  }

  lemma EvidenceIds(d: Deal)
    ensures DashId("request", "evidence", d.suffix, "") == "request-agent-evidence-" + d.suffix
    ensures DashId("correlation", "evidence", d.suffix, "") == "correlation-agent-evidence-" + d.suffix
  {
    assert "request" + "-agent-" + "evidence" + "-" == "request-agent-evidence-";
    assert "correlation" + "-agent-" + "evidence" + "-" == "correlation-agent-evidence-";
    assert d.suffix + "" == d.suffix;
  }

  lemma RuntimeCommandSays(d: Deal, op: Operation, payload: Value, resource: string, step: string)
    requires op != ReadEvidence
    ensures var c, request := RuntimeCommand(d, op, payload, resource, step), Numbered("request", d, step);
            var correlation, key := Numbered("correlation", d, "credit"), Some(Numbered("idempotency", d, step));
            && c.Object? && Payload in c.fields && c.fields[Payload] == payload
            && (op == AcceptOffer ==>
                  Says(c, "pilotAcceptCreditOffer", "credit_offer", resource, request, correlation, key))
            && (op == ExecuteObligation ==>
                  Says(c, "pilotExecuteSandboxObligation", "obligation", resource, request, correlation, key))
            && (op == PostRepayment ==>
                  Says(c, "pilotPostSandboxRepayment", "obligation", resource, request, correlation, key))
  {
    ColonIs("request", d, step);
    ColonIs("correlation", d, "credit");
    ColonIs("idempotency", d, step);
    hide ColonId, Numbered, Says, CommandOf;
    CommandSays(op, payload, resource, ColonId("request", d.suffix, step), ColonId("correlation", d.suffix, "credit"),
                Text(ColonId("idempotency", d.suffix, step)));
  }

  /** The metered workflow's identifiers. */
  function Metered(kind: string, d: Deal, tail: string): string {
    kind + "-agent-metered-" + d.suffix + tail
  }

  lemma DashIs(kind: string, d: Deal, tail: string)
    ensures DashId(kind, "metered", d.suffix, tail) == Metered(kind, d, tail)
  {
    assert "-agent-" + "metered" + "-" == "-agent-metered-";
    assert kind + "-agent-" + "metered" + "-" == kind + "-agent-metered-";
  }

  lemma MeteredCommandSays(d: Deal, op: Operation, payload: Value, resource: string, tail: string)
    ensures var c, request, correlation := MeteredCommand(d, op, payload, resource, tail),
              Metered("request", d, tail), Metered("correlation", d, "");
            var key := if op == ReadEvidence then None else Some(Metered("idempotency", d, tail));
            && c.Object? && Payload in c.fields && c.fields[Payload] == payload
            && (op == AcceptOffer ==>
                  Says(c, "pilotAcceptCreditOffer", "credit_offer", resource, request, correlation, key))
            && (op == ExecuteObligation ==>
                  Says(c, "pilotExecuteSandboxObligation", "obligation", resource, request, correlation, key))
            && (op == PostRepayment ==>
                  Says(c, "pilotPostSandboxRepayment", "obligation", resource, request, correlation, key))
            && (op == ReadEvidence ==>
                  Says(c, "pilotReadOwnObligationEvidence", "evidence", resource, request, correlation, key))
  {
    DashIs("request", d, tail);
    DashIs("correlation", d, "");
    DashIs("idempotency", d, tail);
    hide DashId, Metered, Says, CommandOf;
    CommandSays(op, payload, resource, DashId("request", "metered", d.suffix, tail),
                DashId("correlation", "metered", d.suffix, ""), Text(DashId("idempotency", "metered", d.suffix, tail)));
  }

  /** What the metered workflow says: the same, with an evidence read before the repayment. */
  lemma MeteredSays(d: Deal, o: string)
    ensures var plan, correlation := MeteredPlan(d), Metered("correlation", d, "");
            && Says(plan.accept, "pilotAcceptCreditOffer", "credit_offer", d.offer, Metered("request", d, "-01"),
                    correlation, Some(Metered("idempotency", d, "-01")))
            && AcceptsOffer(plan.accept.fields[Payload], d)
            && Says(plan.execute(o), "pilotExecuteSandboxObligation", "obligation", o, Metered("request", d, "-02"),
                    correlation, Some(Metered("idempotency", d, "-02")))
            && UsesProvider(plan.execute(o).fields[Payload], d)
            && Says(MeteredQuery(d, o), "pilotReadOwnObligationEvidence", "evidence", o, Metered("request", d, "-03"),
                    correlation, None)
            && AsksFifty(MeteredQuery(d, o).fields[Payload])
            && Says(plan.repay(o), "pilotPostSandboxRepayment", "obligation", o, Metered("request", d, "-04"),
                    correlation, Some(Metered("idempotency", d, "-04")))
            && Repays(plan.repay(o).fields[Payload], d)
            && Says(plan.evidence(o), "pilotReadOwnObligationEvidence", "evidence", o, Metered("request", d, "-05"),
                    correlation, None)
            && AsksFifty(plan.evidence(o).fields[Payload])
  {
    PayloadsSay(d);
    MeteredCommandSays(d, AcceptOffer, AcceptPayload(d), d.offer, "-01");
    MeteredCommandSays(d, ExecuteObligation, UsePayload(d), o, "-02");
    MeteredCommandSays(d, ReadEvidence, EvidencePage(), o, "-03");
    MeteredCommandSays(d, PostRepayment, RepaymentPayload(d), o, "-04");
    MeteredCommandSays(d, ReadEvidence, EvidencePage(), o, "-05");
    hide Says, CommandOf, AcceptsOffer, UsesProvider, Repays, AsksFifty, Metered, MeteredCommand, AcceptPayload,
         UsePayload, RepaymentPayload, EvidencePage, DashId;
  }
}
