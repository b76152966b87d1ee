/**
 The event contract, spelled out: the members of an envelope by name, the texts that parse to it, what makes it valid,
 and what its partition key identifies.
 */
module Contract {
  import opened Events
  import opened Families
  import opened Json
  import opened JsonRoundTrip
  import opened Surrogates
  import opened JsonGrammar
  import opened EnvelopeCodec

  // --- members -------------------------------------------------------------------------------------------

  /** The member is there, with the value. */
  predicate Has(obj: map<string, Value>, name: string, v: Value) { name in obj && obj[name] == v }

  const ENVELOPE_MEMBERS: set<string> := {
    "event_id", "tenant_id", "event_type", "event_schema_version", "aggregate_type", "aggregate_id", "aggregate_version",
    "occurred_at", "recorded_at", "producer", "correlation_id", "causation_id", "trace_id", "payload"}

  /** The fourteen members of an envelope and no others. */
  predicate IsEnvelopeObject(obj: map<string, Value>, env: Envelope) {
    && obj.Keys == ENVELOPE_MEMBERS
    && Has(obj, "event_id", Str(env.eventId)) && Has(obj, "tenant_id", Str(env.tenantId))
    && Has(obj, "event_type", Str(env.eventType)) && Has(obj, "event_schema_version", Int(env.schemaVersion))
    && Has(obj, "aggregate_type", Str(env.aggregateType)) && Has(obj, "aggregate_id", Str(env.aggregateId))
    && Has(obj, "aggregate_version", Int(env.version))
    && Has(obj, "occurred_at", Str(env.occurredAt)) && Has(obj, "recorded_at", Str(env.recordedAt))
    && Has(obj, "producer", Str(env.producer)) && Has(obj, "correlation_id", Str(env.correlationId))
    && Has(obj, "causation_id", if env.causationId.Some? then Str(env.causationId.value) else Null)
    && Has(obj, "trace_id", Str(env.traceId))
    && "payload" in obj && obj["payload"].Obj? && IsPayloadObject(obj["payload"].members, env.payload)
  }

  /** The members of a payload, by family, and no others. */
  predicate IsPayloadObject(obj: map<string, Value>, p: Payload) {
    match p
    case QuantityDecremented(order, item, decremented, before, after) =>
      && obj.Keys == {"order_id", "item_id", "quantity_decremented", "quantity_before", "quantity_after"}
      && Has(obj, "order_id", Str(order)) && Has(obj, "item_id", Str(item))
      && Has(obj, "quantity_decremented", Int(decremented)) && Has(obj, "quantity_before", Int(before))
      && Has(obj, "quantity_after", Int(after))
    case SupplierRegistered(supplier) => obj.Keys == {"supplier_id"} && Has(obj, "supplier_id", Str(supplier))
    case IngredientLotReceived(lot, supplier, item) =>
      && obj.Keys == {"lot_id", "supplier_id", "item_id"}
      && Has(obj, "lot_id", Str(lot)) && Has(obj, "supplier_id", Str(supplier)) && Has(obj, "item_id", Str(item))
    case ProductionBatchProduced(batch, lot) =>
      obj.Keys == {"batch_id", "lot_id"} && Has(obj, "batch_id", Str(batch)) && Has(obj, "lot_id", Str(lot))
    case ShipmentDispatched(shipment, batch, order) =>
      && obj.Keys == {"shipment_id", "batch_id", "order_id"}
      && Has(obj, "shipment_id", Str(shipment)) && Has(obj, "batch_id", Str(batch)) && Has(obj, "order_id", Str(order))
  }

  lemma PayloadMembers(p: Payload)
    ensures IsPayloadObject(PayloadObject(p), p)
  {
    hide ObjectOf;
    var ks, vs := PayloadKeys(p.Kind()), PayloadValues(p);
    PayloadKeysDistinct(p.Kind());
    ObjectOfHolds(ks, vs);
    var obj := PayloadObject(p);
    match p
    case QuantityDecremented(_, _, _, _, _) =>
      assert ks[0] in obj && ks[1] in obj && ks[2] in obj && ks[3] in obj && ks[4] in obj;
    case SupplierRegistered(_) =>
      assert ks[0] in obj;
    case IngredientLotReceived(_, _, _) =>
      assert ks[0] in obj && ks[1] in obj && ks[2] in obj;
    case ProductionBatchProduced(_, _) =>
      assert ks[0] in obj && ks[1] in obj;
    case ShipmentDispatched(_, _, _) =>
      assert ks[0] in obj && ks[1] in obj && ks[2] in obj;
  }

  /** The canonical object of an envelope has exactly the members of the contract. */
  lemma EnvelopeMembers(env: Envelope)
    ensures IsEnvelopeObject(EnvelopeObject(env), env)
  {
    hide EnvelopeObject, PayloadObject, IsPayloadObject, Has;
    EnvelopeNames(env);
    PayloadMembers(env.payload);
    FirstMembers(env);
    LastMembers(env);
  }

  lemma MemberAt(env: Envelope, i: nat)
    requires i < 14
    ensures |ENVELOPE_KEYS| == |EnvelopeValues(env)| == 14
    ensures Has(EnvelopeObject(env), ENVELOPE_KEYS[i], EnvelopeValues(env)[i])
  {
    hide ObjectOf, PayloadObject;
    EnvelopeKeysDistinct();
    ObjectOfHolds(ENVELOPE_KEYS, EnvelopeValues(env));
  }

  lemma EnvelopeNames(env: Envelope)
    ensures EnvelopeObject(env).Keys == ENVELOPE_MEMBERS
  {
    hide ObjectOf, PayloadObject;
    EnvelopeKeysDistinct();
    ObjectOfHolds(ENVELOPE_KEYS, EnvelopeValues(env));
    SetOfFourteen(ENVELOPE_KEYS);
  }

  lemma SetOfFourteen(ks: seq<string>)
    requires |ks| == 14
    ensures (set k | k in ks) ==
            {ks[0], ks[1], ks[2], ks[3], ks[4], ks[5], ks[6], ks[7], ks[8], ks[9], ks[10], ks[11], ks[12], ks[13]}
  {
  }

  lemma FirstMembers(env: Envelope)
    ensures var obj := EnvelopeObject(env);
            && Has(obj, "event_id", Str(env.eventId)) && Has(obj, "tenant_id", Str(env.tenantId))
            && Has(obj, "event_type", Str(env.eventType)) && Has(obj, "event_schema_version", Int(env.schemaVersion))
            && Has(obj, "aggregate_type", Str(env.aggregateType)) && Has(obj, "aggregate_id", Str(env.aggregateId))
            && Has(obj, "aggregate_version", Int(env.version))
  {
    hide EnvelopeObject, Has, PayloadObject;
    MemberAt(env, 0);
    MemberAt(env, 1);
    MemberAt(env, 2);
    MemberAt(env, 3);
    MemberAt(env, 4);
    MemberAt(env, 5);
    MemberAt(env, 6);
  }

  lemma LastMembers(env: Envelope)
    ensures var obj := EnvelopeObject(env);
            && Has(obj, "occurred_at", Str(env.occurredAt)) && Has(obj, "recorded_at", Str(env.recordedAt))
            && Has(obj, "producer", Str(env.producer)) && Has(obj, "correlation_id", Str(env.correlationId))
            && Has(obj, "causation_id", if env.causationId.Some? then Str(env.causationId.value) else Null)
            && Has(obj, "trace_id", Str(env.traceId))
            && "payload" in obj && obj["payload"] == Obj(PayloadObject(env.payload))
  {
    hide EnvelopeObject, PayloadObject;
    MemberAt(env, 7);
    MemberAt(env, 8);
    MemberAt(env, 9);
    MemberAt(env, 10);
    MemberAt(env, 11);
    MemberAt(env, 12);
    MemberAt(env, 13);
  }

  /** Only one object has them. */
  lemma MembersDetermine(a: map<string, Value>, b: map<string, Value>, env: Envelope)
    requires IsEnvelopeObject(a, env) && IsEnvelopeObject(b, env)
    ensures a == b
  {
    hide IsPayloadObject;
    PayloadDetermines(a["payload"].members, b["payload"].members, env.payload);
    forall k | k in a.Keys ensures a[k] == b[k] {
    }
  }

  lemma PayloadDetermines(a: map<string, Value>, b: map<string, Value>, p: Payload)
    requires IsPayloadObject(a, p) && IsPayloadObject(b, p)
    ensures a == b
  {
    forall k | k in a.Keys ensures a[k] == b[k] {
    }
  }

  // --- decoding ------------------------------------------------------------------------------------------

  lemma FieldsInverse(keys: seq<string>, obj: map<string, Value>)
    requires Distinct(keys) && Fields(obj, keys).Some?
    ensures |Fields(obj, keys).value| == |keys| && obj == ObjectOf(keys, Fields(obj, keys).value)
  {
    var v := Fields(obj, keys).value;
    ObjectOfHolds(keys, v);
    hide ObjectOf;
    var m := ObjectOf(keys, v);
    forall k | k in obj.Keys ensures obj[k] == m[k] {
      var i :| 0 <= i < |keys| && keys[i] == k;
    }
  }

  /** An object decodes to a payload of the family exactly when it is that payload's object. */
  lemma PayloadDecodes(kind: Kind, obj: map<string, Value>, p: Payload)
    ensures PayloadFromObject(kind, obj) == Ok(p) <==> p.Kind() == kind && obj == PayloadObject(p)
  {
    hide ObjectOf;
    PayloadRoundTrip(p);
    PayloadKeysDistinct(kind);
    if PayloadFromObject(kind, obj) == Ok(p) {
      FieldsInverse(PayloadKeys(kind), obj);
      var v := Fields(obj, PayloadKeys(kind)).value;
      hide Fields;
      assert v == PayloadValues(p);
    }
  }

  /** An object decodes to an envelope exactly when it is that envelope's object and the event type names its family. */
  lemma EnvelopeDecodes(obj: map<string, Value>, env: Envelope)
    ensures EnvelopeFromObject(obj) == Ok(env) <==>
            obj == EnvelopeObject(env) && FamilyOf(env.eventType, env.schemaVersion) == Ok(env.payload.Kind())
  {
    hide ObjectOf, PayloadFromObject, PayloadObject, FamilyOf, Fields, EnvelopeFromValues;
    if obj == EnvelopeObject(env) && FamilyOf(env.eventType, env.schemaVersion) == Ok(env.payload.Kind()) {
      EnvelopeRoundTrip(env);
    }
    if EnvelopeFromObject(obj) == Ok(env) {
      EnvelopeKeysDistinct();
      FieldsInverse(ENVELOPE_KEYS, obj);
      ValuesDecode(Fields(obj, ENVELOPE_KEYS).value, env);
    }
  }

  lemma ValuesDecode(v: seq<Value>, env: Envelope)
    requires |v| == 14 && EnvelopeFromValues(v) == Ok(env)
    ensures v == EnvelopeValues(env) && FamilyOf(env.eventType, env.schemaVersion) == Ok(env.payload.Kind())
  {
    hide PayloadFromObject, PayloadObject, FamilyOf;
    var kind := FamilyOf(v[2].text, v[3].number).value;
    PayloadDecodes(kind, v[13].members, env.payload);
  }

  /** The event type and schema version name a family. */
  predicate Supported(eventType: string, schemaVersion: int) {
    && schemaVersion == 1
    && (eventType == "inventory.quantity_decremented" || eventType == "supplier.registered"
        || eventType == "ingredient_lot.received" || eventType == "production_batch.produced" || eventType == "shipment.dispatched")
  }

  /** The names of the five families. */
  lemma FamilyNames(eventType: string, schemaVersion: int)
    ensures FamilyOf(eventType, schemaVersion).Ok? <==> Supported(eventType, schemaVersion)
    ensures FamilyOf("inventory.quantity_decremented", 1) == Ok(InventoryItem)
    ensures FamilyOf("supplier.registered", 1) == Ok(Supplier)
    ensures FamilyOf("ingredient_lot.received", 1) == Ok(IngredientLot)
    ensures FamilyOf("production_batch.produced", 1) == Ok(ProductionBatch)
    ensures FamilyOf("shipment.dispatched", 1) == Ok(Shipment)
  {
    FamilyOfName(InventoryItem);
    FamilyOfName(Supplier);
    FamilyOfName(IngredientLot);
    FamilyOfName(ProductionBatch);
    FamilyOfName(Shipment);
  }

  /**
   A text parses to an envelope exactly when it is a way to write an object with the fourteen members of that envelope,
   and the envelope is valid.
   */
  lemma ParsesIff(rules: TextRules, raw: string, env: Envelope)
    ensures Parse(rules, raw) == Ok(env) <==>
            Validate(rules, env) == None && exists obj :: Writes(raw, Obj(obj)) && IsEnvelopeObject(obj, env)
  {
    hide DecodeStrict, EnvelopeFromObject, Validate, Writes, IsEnvelopeObject, EnvelopeObject;
    EnvelopeMembers(env);
    if Parse(rules, raw) == Ok(env) {
      var obj := DecodeStrict(raw).value.members;
      DecodesIff(raw, Obj(obj));
      EnvelopeDecodes(obj, env);
    }
    if Validate(rules, env) == None && exists obj :: Writes(raw, Obj(obj)) && IsEnvelopeObject(obj, env) {
      var obj :| Writes(raw, Obj(obj)) && IsEnvelopeObject(obj, env);
      MembersDetermine(obj, EnvelopeObject(env), env);
      DecodesIff(raw, Obj(obj));
      ValidFamily(rules, env);
      EnvelopeDecodes(obj, env);
    }
  }

  lemma ValidFamily(rules: TextRules, env: Envelope)
    requires Validate(rules, env) == None
    ensures FamilyOf(env.eventType, env.schemaVersion) == Ok(env.payload.Kind())
  {
    hide IsUuid, IsCanonicalId, PayloadValid;
  }

  /** The members of an envelope with the right types, whatever their values. */
  predicate Typed(obj: map<string, Value>) {
    && obj.Keys == ENVELOPE_MEMBERS
    && "event_id" in obj && obj["event_id"].Str? && "tenant_id" in obj && obj["tenant_id"].Str?
    && "event_type" in obj && obj["event_type"].Str? && "event_schema_version" in obj && obj["event_schema_version"].Int?
    && "aggregate_type" in obj && obj["aggregate_type"].Str? && "aggregate_id" in obj && obj["aggregate_id"].Str?
    && "aggregate_version" in obj && obj["aggregate_version"].Int?
    && "occurred_at" in obj && obj["occurred_at"].Str? && "recorded_at" in obj && obj["recorded_at"].Str?
    && "producer" in obj && obj["producer"].Str? && "correlation_id" in obj && obj["correlation_id"].Str?
    && "causation_id" in obj && (obj["causation_id"].Str? || obj["causation_id"].Null?)
    && "trace_id" in obj && obj["trace_id"].Str? && "payload" in obj && obj["payload"].Obj?
  }

  /** Well typed, but of no known family. */
  predicate UnknownFamily(obj: map<string, Value>) {
    Typed(obj) && !Supported(obj["event_type"].text, obj["event_schema_version"].number)
  }

  lemma FieldAt(obj: map<string, Value>, i: nat)
    requires i < 14 && Fields(obj, ENVELOPE_KEYS).Some?
    ensures |Fields(obj, ENVELOPE_KEYS).value| == 14
    ensures Has(obj, ENVELOPE_KEYS[i], Fields(obj, ENVELOPE_KEYS).value[i])
  {
    assert ENVELOPE_KEYS[i] in ENVELOPE_KEYS;
    assert ENVELOPE_KEYS[i] in obj.Keys;
  }

  lemma FieldsWhen(obj: map<string, Value>)
    ensures Fields(obj, ENVELOPE_KEYS).Some? <==> obj.Keys == ENVELOPE_MEMBERS
  {
    SetOfFourteen(ENVELOPE_KEYS);
  }

  lemma FieldsTyped(obj: map<string, Value>)
    ensures Fields(obj, ENVELOPE_KEYS).Some? ==> |Fields(obj, ENVELOPE_KEYS).value| == 14
    ensures Typed(obj) <==> Fields(obj, ENVELOPE_KEYS).Some? && HeaderTyped(Fields(obj, ENVELOPE_KEYS).value)
                            && Fields(obj, ENVELOPE_KEYS).value[13].Obj?
    ensures Typed(obj) ==> Fields(obj, ENVELOPE_KEYS).value[2] == obj["event_type"]
                           && Fields(obj, ENVELOPE_KEYS).value[3] == obj["event_schema_version"]
  {
    hide Fields;
    FieldsWhen(obj);
    if Fields(obj, ENVELOPE_KEYS).Some? {
      FieldAt(obj, 0);
      FieldAt(obj, 1);
      FieldAt(obj, 2);
      FieldAt(obj, 3);
      FieldAt(obj, 4);
      FieldAt(obj, 5);
      FieldAt(obj, 6);
      FieldAt(obj, 7);
      FieldAt(obj, 8);
      FieldAt(obj, 9);
      FieldAt(obj, 10);
      FieldAt(obj, 11);
      FieldAt(obj, 12);
      FieldAt(obj, 13);
    }
  }

  /** A text is unsupported exactly when it writes a well-typed envelope object whose type and version name no family. */
  lemma UnsupportedIff(rules: TextRules, raw: string)
    ensures Parse(rules, raw) == Err(Unsupported) <==>
            exists obj :: Writes(raw, Obj(obj)) && UnknownFamily(obj)
  {
    hide Writes, UnknownFamily, Fields, PayloadFromObject, FamilyOf;
    forall obj ensures DecodeStrict(raw) == Ok(Obj(obj)) <==> Writes(raw, Obj(obj)) {
      DecodesIff(raw, Obj(obj));
    }
    hide DecodeStrict;
    forall obj ensures EnvelopeFromObject(obj) == Err(Unsupported) <==> UnknownFamily(obj) {
      UnsupportedObject(obj);
    }
    hide EnvelopeFromObject;
    forall env ensures Validate(rules, env) == Some(Unsupported) ==> FamilyOf(env.eventType, env.schemaVersion).Err? {
      InvalidIsMalformed(rules, env);
    }
    hide Validate;
    var root := DecodeStrict(raw);
    if root.Ok? && root.value.Obj? {
      var obj := root.value.members;
      if EnvelopeFromObject(obj).Ok? {
        EnvelopeDecodes(obj, EnvelopeFromObject(obj).value);
      }
    }
  }

  lemma TypedMeans(obj: map<string, Value>)
    ensures Typed(obj) ==> "event_type" in obj && obj["event_type"].Str?
                           && "event_schema_version" in obj && obj["event_schema_version"].Int?
  {
  }

  lemma InvalidIsMalformed(rules: TextRules, env: Envelope)
    ensures Validate(rules, env) == Some(Unsupported) ==> FamilyOf(env.eventType, env.schemaVersion).Err?
  {
    hide IsUuid, IsCanonicalId, PayloadValid;
  }

  lemma PayloadFaults(kind: Kind, obj: map<string, Value>)
    ensures PayloadFromObject(kind, obj).Err? ==> PayloadFromObject(kind, obj).error == Malformed
  {
    hide Fields;
    PayloadWidth(kind, obj);
  }

  lemma PayloadWidth(kind: Kind, obj: map<string, Value>)
    ensures Fields(obj, PayloadKeys(kind)).Some? ==> |Fields(obj, PayloadKeys(kind)).value| == |PayloadKeys(kind)|
  {
  }

  lemma UnsupportedObject(obj: map<string, Value>)
    ensures EnvelopeFromObject(obj) == Err(Unsupported) <==> UnknownFamily(obj)
  {
    FieldsTyped(obj);
    TypedMeans(obj);
    hide Fields, Typed, PayloadFromObject, Supported, FamilyOf;
    if Fields(obj, ENVELOPE_KEYS).Some? {
      var v := Fields(obj, ENVELOPE_KEYS).value;
      if HeaderTyped(v) && v[13].Obj? {
        FamilyNames(v[2].text, v[3].number);
        if FamilyOf(v[2].text, v[3].number).Ok? {
          PayloadFaults(FamilyOf(v[2].text, v[3].number).value, v[13].members);
        }
      }
    }
  }

  // --- validity ------------------------------------------------------------------------------------------

  /** 32 hexadecimal digits, of version 4 and the RFC 4122 variant. */
  ghost predicate UuidDigits(ns: seq<Nibble>) {
    && |ns| == 32 && (forall i | 0 <= i < 32 :: NibbleOk(ns[i]))
    && ns[12].value == 4 && 8 <= ns[16].value <= 11
  }

  /** Which digit stands at place `j` of the text: the dashes come after 8, 12, 16 and 20 digits. */
  function DigitAt(j: nat): int {
    if j < 8 then j else if j < 13 then j - 1 else if j < 18 then j - 2 else if j < 23 then j - 3 else j - 4
  }

  predicate IsDash(j: nat) { j == 8 || j == 13 || j == 18 || j == 23 }

  /** The text is the digits with dashes in between. */
  ghost predicate UuidText(ns: seq<Nibble>, s: string)
    requires UuidDigits(ns)
  {
    |s| == 36 && forall j | 0 <= j < 36 :: s[j] == if IsDash(j) then '-' else NibbleChar(ns[DigitAt(j)])
  }

  ghost predicate Uuid(s: string) { exists ns: seq<Nibble> :: UuidDigits(ns) && UuidText(ns, s) }

  lemma UuidIff(s: string)
    ensures IsUuid(s) <==> Uuid(s)
  {
    if IsUuid(s) {
      UuidOf(s);
    }
    if Uuid(s) {
      var ns: seq<Nibble> :| UuidDigits(ns) && UuidText(ns, s);
      hide HexValue, NibbleChar;
      forall j | 0 <= j < 36 && !IsDash(j) ensures HexValue(s[j]) == ns[DigitAt(j)].value {
        NibbleReads(ns[DigitAt(j)]);
      }
      assert HexValue(s[14]) == 4 && HexValue(s[19]) == ns[16].value;
      FourIs(s[14]);
    }
  }

  lemma FourIs(c: char)
    requires HexValue(c) == 4
    ensures c == '4'
  {
  }

  function PlaceOf(i: nat): int {
    if i < 8 then i else if i < 12 then i + 1 else if i < 16 then i + 2 else if i < 20 then i + 3 else i + 4
  }

  lemma UuidOf(s: string)
    requires IsUuid(s)
    ensures Uuid(s)
  {
    hide HexValue, NibbleChar;
    var ns := seq(32, i requires 0 <= i < 32 => Nibble(HexValue(s[PlaceOf(i)]), 'A' <= s[PlaceOf(i)] <= 'F'));
    forall i | 0 <= i < 32 ensures NibbleOk(ns[i]) && NibbleChar(ns[i]) == s[PlaceOf(i)] {
      assert IsHexDigit(s[PlaceOf(i)]);
      NibbleIs(s[PlaceOf(i)]);
    }
    assert ns[12].value == 4 by {
      NibbleIs(s[14]);
      FourReads();
    }
    forall j | 0 <= j < 36 && !IsDash(j) ensures s[j] == NibbleChar(ns[DigitAt(j)]) {
      assert PlaceOf(DigitAt(j)) == j;
    }
    assert UuidDigits(ns) && UuidText(ns, s);
  }

  lemma FourReads()
    ensures HexValue('4') == 4
  {
  }

  lemma NibbleIs(c: char)
    requires HexValue(c) >= 0
    ensures var n := Nibble(HexValue(c), 'A' <= c <= 'F');
            NibbleOk(n) && NibbleChar(n) == c
  {
  }

  /** Lower case, not empty, without white space. */
  predicate Id(rules: TextRules, s: string) {
    s != "" && rules.isLower(s) && forall i | 0 <= i < |s| :: !rules.isSpace(s[i])
  }

  predicate Count(n: int) { 0 <= n <= 9007199254740991 }

  /** The payload goes with the event type, the aggregate type and the aggregate id, and its own fields are in order. */
  ghost predicate ValidPayload(rules: TextRules, env: Envelope) {
    match env.payload
    case QuantityDecremented(order, item, decremented, before, after) =>
      && env.eventType == "inventory.quantity_decremented" && env.aggregateType == "inventory_item" && env.aggregateId == item
      && Uuid(order) && Count(decremented) && decremented != 0 && Count(before) && Count(after) && after == before - decremented
    case SupplierRegistered(supplier) =>
      env.eventType == "supplier.registered" && env.aggregateType == "supplier" && env.aggregateId == supplier
    case IngredientLotReceived(lot, supplier, item) =>
      && env.eventType == "ingredient_lot.received" && env.aggregateType == "ingredient_lot" && env.aggregateId == lot
      && Id(rules, supplier) && Id(rules, item)
    case ProductionBatchProduced(batch, lot) =>
      && env.eventType == "production_batch.produced" && env.aggregateType == "production_batch" && env.aggregateId == batch
      && Id(rules, lot)
    case ShipmentDispatched(shipment, batch, order) =>
      && env.eventType == "shipment.dispatched" && env.aggregateType == "shipment" && env.aggregateId == shipment
      && Id(rules, batch) && Uuid(order)
  }

  /** A valid envelope, field by field. */
  ghost predicate Valid(rules: TextRules, env: Envelope) {
    && Uuid(env.eventId) && Uuid(env.tenantId) && rules.isLower(env.tenantId) && Uuid(env.correlationId)
    && (env.causationId.Some? ==> Uuid(env.causationId.value))
    && env.schemaVersion == 1 && env.producer == "synthetic-erp" && Count(env.version) && env.version != 0
    && rules.isInstant(env.occurredAt) && rules.isInstant(env.recordedAt)
    && (exists i | 0 <= i < |env.traceId| :: !rules.isSpace(env.traceId[i]))
    && Id(rules, env.aggregateId) && ValidPayload(rules, env)
  }

  /** Validation accepts exactly the valid envelopes; it calls one unsupported exactly for a family it does not know. */
  lemma ValidatesIff(rules: TextRules, env: Envelope)
    ensures Validate(rules, env) == None <==> Valid(rules, env)
    ensures Validate(rules, env) == Some(Unsupported) <==>
            Uuid(env.eventId) && Uuid(env.tenantId) && rules.isLower(env.tenantId) && !Supported(env.eventType, env.schemaVersion)
  {
    hide IsUuid, Uuid, FamilyOf, Supported, PayloadValid, ValidPayload, IsCanonicalId, Id;
    UuidIff(env.eventId);
    UuidIff(env.tenantId);
    UuidIff(env.correlationId);
    if env.causationId.Some? {
      UuidIff(env.causationId.value);
    }
    FamilyNames(env.eventType, env.schemaVersion);
    IdIff(rules, env.aggregateId);
    SupportedVersion(env.eventType, env.schemaVersion);
    if FamilyOf(env.eventType, env.schemaVersion).Ok? && IsCanonicalId(rules, env.aggregateId) {
      PayloadValidates(rules, env, FamilyOf(env.eventType, env.schemaVersion).value);
    }
    if ValidPayload(rules, env) && env.schemaVersion == 1 {
      ValidIsSupported(rules, env);
    }
  }

  lemma SupportedVersion(eventType: string, schemaVersion: int)
    ensures Supported(eventType, schemaVersion) ==> schemaVersion == 1
  {
  }

  lemma ValidIsSupported(rules: TextRules, env: Envelope)
    requires ValidPayload(rules, env) && env.schemaVersion == 1
    ensures Supported(env.eventType, env.schemaVersion)
  {
    hide Uuid, Id;
  }

  lemma IdIff(rules: TextRules, s: string)
    ensures IsCanonicalId(rules, s) <==> Id(rules, s)
  {
  }

  lemma PayloadValidates(rules: TextRules, env: Envelope, kind: Kind)
    requires FamilyOf(env.eventType, env.schemaVersion) == Ok(kind) && IsCanonicalId(rules, env.aggregateId)
    ensures env.aggregateType == AggregateTypeName(kind) && env.payload.Kind() == kind && PayloadValid(rules, env) <==>
            ValidPayload(rules, env)
  {
    hide IsUuid, Uuid, IsCanonicalId, Id, FamilyOf;
    NamesDiffer(env.eventType, kind, env.schemaVersion);
    match env.payload
    case QuantityDecremented(order, item, decremented, before, after) =>
      UuidIff(order);
    case SupplierRegistered(supplier) =>
    case IngredientLotReceived(lot, supplier, item) =>
      IdIff(rules, supplier);
      IdIff(rules, item);
    case ProductionBatchProduced(batch, lot) =>
      IdIff(rules, lot);
    case ShipmentDispatched(shipment, batch, order) =>
      IdIff(rules, batch);
      UuidIff(order);
  }

  lemma NamesDiffer(eventType: string, kind: Kind, schemaVersion: int)
    requires FamilyOf(eventType, schemaVersion) == Ok(kind)
    ensures eventType == "inventory.quantity_decremented" <==> kind == InventoryItem
    ensures eventType == "supplier.registered" <==> kind == Supplier
    ensures eventType == "ingredient_lot.received" <==> kind == IngredientLot
    ensures eventType == "production_batch.produced" <==> kind == ProductionBatch
    ensures eventType == "shipment.dispatched" <==> kind == Shipment
  {
    FamilyNames(eventType, schemaVersion);
    hide FamilyOf;
    assert schemaVersion == 1 && Supported(eventType, schemaVersion);
  }

  // --- the partition key ---------------------------------------------------------------------------------

  lemma SlashSplits(a: string, b: string, x: string, y: string)
    requires '/' !in a && '/' !in b && a + "/" + x == b + "/" + y
    ensures a == b && x == y
  {
    var s := a + "/" + x;
    forall j | 0 <= j < |a| ensures s[j] != '/' {
      assert s[j] == a[j];
    }
    forall j | 0 <= j < |b| ensures s[j] != '/' {
      assert s[j] == b[j];
    }
    assert s[|a|] == '/' && s[|b|] == '/';
    assert a == s[..|a|] && b == s[..|b|] && x == s[|a| + 1..] && y == s[|b| + 1..];
  }

  lemma UuidHasNoSlash(s: string)
    requires IsUuid(s)
    ensures '/' !in s
  {
    forall j | 0 <= j < |s| ensures s[j] != '/' {
      if !IsDash(j) {
        assert IsHexDigit(s[j]);
      }
    }
  }

  lemma TypeHasNoSlash(kind: Kind)
    ensures '/' !in AggregateTypeName(kind)
  {
  }

  /** The partition key of a valid event is tenant, aggregate type and aggregate id, and identifies them. */
  lemma KeyIdentifiesAggregate(rules: TextRules, a: Envelope, b: Envelope)
    requires Validate(rules, a) == None && Validate(rules, b) == None
    ensures AggregateKey(a.tenantId, a.aggregateType, a.aggregateId) == AggregateKey(b.tenantId, b.aggregateType, b.aggregateId)
            <==> a.tenantId == b.tenantId && a.aggregateType == b.aggregateType && a.aggregateId == b.aggregateId
  {
    PlainParts(rules, a);
    PlainParts(rules, b);
    hide Validate;
    var x, y := a.aggregateType + "/" + a.aggregateId, b.aggregateType + "/" + b.aggregateId;
    assert AggregateKey(a.tenantId, a.aggregateType, a.aggregateId) == a.tenantId + "/" + x;
    assert AggregateKey(b.tenantId, b.aggregateType, b.aggregateId) == b.tenantId + "/" + y;
    if a.tenantId + "/" + x == b.tenantId + "/" + y {
      SlashSplits(a.tenantId, b.tenantId, x, y);
      SlashSplits(a.aggregateType, b.aggregateType, a.aggregateId, b.aggregateId);
    }
  }

  lemma PlainParts(rules: TextRules, env: Envelope)
    requires Validate(rules, env) == None
    ensures '/' !in env.tenantId && '/' !in env.aggregateType
  {
    hide IsUuid, IsCanonicalId, PayloadValid;
    UuidHasNoSlash(env.tenantId);
    TypeHasNoSlash(env.payload.Kind());
  }
}
