/**
 Envelopes as JSON text: validation, the canonical serialization and the strict parser. The result is a `Codec`
 that is lawful: parsing undoes printing on every valid envelope.
 */
module EnvelopeCodec {
  import opened Events
  import opened Families
  import opened Utf16
  import opened Json
  import opened JsonRoundTrip
  import opened Surrogates

  /** Checks on text that come from the platform: lower case, Unicode white space, an RFC 3339 instant ending in Z. */
  datatype TextRules = TextRules(isLower: string -> bool, isSpace: char -> bool, isInstant: string -> bool)

  // --- validation --------------------------------------------------------------------------------

  predicate IsHexDigit(c: char) { HexValue(c) >= 0 }

  /** A version 4 UUID with the RFC 4122 variant, in either case. */
  predicate IsUuid(s: string) {
    && |s| == 36
    && (forall i | 0 <= i < 36 && i != 8 && i != 13 && i != 18 && i != 23 :: IsHexDigit(s[i]))
    && s[8] == '-' && s[13] == '-' && s[18] == '-' && s[23] == '-'
    && s[14] == '4' && 8 <= HexValue(s[19]) <= 11
  }

  predicate IsCanonicalId(rules: TextRules, s: string) {
    s != "" && rules.isLower(s) && forall i | 0 <= i < |s| :: !rules.isSpace(s[i])
  }

  predicate InRange(n: int, low: int) { low <= n <= MAX_SAFE_INT }

  predicate PayloadValid(rules: TextRules, env: Envelope) {
    && env.payload.SelfId() == env.aggregateId
    && match env.payload
       case QuantityDecremented(order, item, decremented, before, after) =>
         && IsUuid(order) && IsCanonicalId(rules, item)
         && InRange(decremented, 1) && InRange(before, 0) && InRange(after, 0)
         && before - decremented == after
       case SupplierRegistered(supplier) => IsCanonicalId(rules, supplier)
       case IngredientLotReceived(lot, supplier, item) =>
         IsCanonicalId(rules, lot) && IsCanonicalId(rules, supplier) && IsCanonicalId(rules, item)
       case ProductionBatchProduced(batch, lot) => IsCanonicalId(rules, batch) && IsCanonicalId(rules, lot)
       case ShipmentDispatched(shipment, batch, order) =>
         IsCanonicalId(rules, shipment) && IsCanonicalId(rules, batch) && IsUuid(order)
  }

  /** Validate; `None` is success. */
  function Validate(rules: TextRules, env: Envelope): Option<Fault> {
    if !IsUuid(env.eventId) || !IsUuid(env.tenantId) || !rules.isLower(env.tenantId) then Some(Malformed)
    else
      match FamilyOf(env.eventType, env.schemaVersion)
      case Err(f) => Some(f)
      case Ok(kind) =>
        if && env.aggregateType == AggregateTypeName(kind)
           && IsCanonicalId(rules, env.aggregateId)
           && InRange(env.version, 1)
           && rules.isInstant(env.occurredAt) && rules.isInstant(env.recordedAt)
           && env.producer == PRODUCER
           && IsUuid(env.correlationId)
           && (env.causationId.Some? ==> IsUuid(env.causationId.value))
           && (exists i | 0 <= i < |env.traceId| :: !rules.isSpace(env.traceId[i]))
           && env.payload.Kind() == kind
           && PayloadValid(rules, env)
        then None else Some(Malformed)
  }

  // --- envelopes and objects -----------------------------------------------------------------------

  const ENVELOPE_KEYS: seq<string> := [
    "event_id", "tenant_id", "event_type", "event_schema_version", "aggregate_type", "aggregate_id",
    "aggregate_version", "occurred_at", "recorded_at", "producer", "correlation_id", "causation_id", "trace_id", "payload"]

  function PayloadKeys(kind: Kind): seq<string> {
    match kind
    case InventoryItem => ["order_id", "item_id", "quantity_decremented", "quantity_before", "quantity_after"]
    case Supplier => ["supplier_id"]
    case IngredientLot => ["lot_id", "supplier_id", "item_id"]
    case ProductionBatch => ["batch_id", "lot_id"]
    case Shipment => ["shipment_id", "batch_id", "order_id"]
  }

  function PayloadValues(p: Payload): (vs: seq<Value>)
    ensures |vs| == |PayloadKeys(p.Kind())|
  {
    match p
    case QuantityDecremented(order, item, decremented, before, after) =>
      [Str(order), Str(item), Int(decremented), Int(before), Int(after)]
    case SupplierRegistered(supplier) => [Str(supplier)]
    case IngredientLotReceived(lot, supplier, item) => [Str(lot), Str(supplier), Str(item)]
    case ProductionBatchProduced(batch, lot) => [Str(batch), Str(lot)]
    case ShipmentDispatched(shipment, batch, order) => [Str(shipment), Str(batch), Str(order)]
  }

  /** The object whose members are `keys` with `values`, in any order. */
  function ObjectOf(keys: seq<string>, values: seq<Value>): map<string, Value>
    requires |keys| == |values|
  {
    if keys == [] then map[]
    else ObjectOf(keys[1..], values[1..])[keys[0] := values[0]]
  }

  /** The members of `obj` when they are exactly `keys`. */
  function Fields(obj: map<string, Value>, keys: seq<string>): Option<seq<Value>> {
    if obj.Keys == set k | k in keys then Some(seq(|keys|, i requires 0 <= i < |keys| =>
      assert keys[i] in keys;
      assert keys[i] in obj.Keys;
      obj[keys[i]]))
    else None
  }

  function NullableText(text: Option<string>): Value {
    if text.None? then Null else Str(text.value)
  }

  /** payloadMap. */
  function PayloadObject(p: Payload): map<string, Value> {
    ObjectOf(PayloadKeys(p.Kind()), PayloadValues(p))
  }

  function EnvelopeValues(env: Envelope): seq<Value> {
    [Str(env.eventId), Str(env.tenantId), Str(env.eventType), Int(env.schemaVersion), Str(env.aggregateType),
     Str(env.aggregateId), Int(env.version), Str(env.occurredAt), Str(env.recordedAt), Str(env.producer),
     Str(env.correlationId), NullableText(env.causationId), Str(env.traceId), Obj(PayloadObject(env.payload))]
  }

  /** envelopeMap. */
  function EnvelopeObject(env: Envelope): map<string, Value> {
    ObjectOf(ENVELOPE_KEYS, EnvelopeValues(env))
  }

  predicate AllText(vs: seq<Value>) { forall i | 0 <= i < |vs| :: vs[i].Str? }

  /** payloadFromObject. */
  function PayloadFromObject(kind: Kind, obj: map<string, Value>): Result<Payload> {
    match Fields(obj, PayloadKeys(kind))
    case None => Err(Malformed)
    case Some(v) =>
      match kind
      case InventoryItem =>
        if v[0].Str? && v[1].Str? && v[2].Int? && v[3].Int? && v[4].Int?
        then Ok(QuantityDecremented(v[0].text, v[1].text, v[2].number, v[3].number, v[4].number)) else Err(Malformed)
      case Supplier => if AllText(v) then Ok(SupplierRegistered(v[0].text)) else Err(Malformed)
      case IngredientLot =>
        if AllText(v) then Ok(IngredientLotReceived(v[0].text, v[1].text, v[2].text)) else Err(Malformed)
      case ProductionBatch => if AllText(v) then Ok(ProductionBatchProduced(v[0].text, v[1].text)) else Err(Malformed)
      case Shipment =>
        if AllText(v) then Ok(ShipmentDispatched(v[0].text, v[1].text, v[2].text)) else Err(Malformed)
  }

  /** The thirteen members beside the payload have the right types. */
  predicate HeaderTyped(v: seq<Value>)
    requires |v| == 14
  {
    && v[0].Str? && v[1].Str? && v[2].Str? && v[3].Int? && v[4].Str? && v[5].Str? && v[6].Int?
    && v[7].Str? && v[8].Str? && v[9].Str? && v[10].Str? && (v[11].Null? || v[11].Str?) && v[12].Str?
  }

  /** The envelope with the given member values. */
  function EnvelopeFromValues(v: seq<Value>): Result<Envelope>
    requires |v| == 14
  {
    if !HeaderTyped(v) || !v[13].Obj? then Err(Malformed)
    else
      match FamilyOf(v[2].text, v[3].number)
      case Err(f) => Err(f)
      case Ok(kind) =>
        match PayloadFromObject(kind, v[13].members)
        case Err(f) => Err(f)
        case Ok(payload) =>
          Ok(Envelope(v[0].text, v[1].text, v[2].text, v[3].number, v[4].text, v[5].text, v[6].number, v[7].text,
                      v[8].text, v[9].text, v[10].text, if v[11].Null? then None else Some(v[11].text), v[12].text,
                      payload))
  }

  /** envelopeFromObject. */
  function EnvelopeFromObject(obj: map<string, Value>): Result<Envelope> {
    match Fields(obj, ENVELOPE_KEYS)
    case None => Err(Malformed)
    case Some(v) => EnvelopeFromValues(v)
  }

  function Parse(rules: TextRules, raw: string): Result<Envelope> {
    match DecodeStrict(raw)
    case Err(f) => Err(f)
    case Ok(root) =>
      if !root.Obj? then Err(Malformed)
      else
        match EnvelopeFromObject(root.members)
        case Err(f) => Err(f)
        case Ok(env) =>
          match Validate(rules, env)
          case Some(f) => Err(f)
          case None => Ok(env)
  }

  /** The text CanonicalBytes returns for a valid envelope. */
  ghost function Canonical(env: Envelope): string {
    Print(Obj(EnvelopeObject(env)))
  }

  // --- members of an object ------------------------------------------------------------------------

  lemma {:induction false} ObjectOfHolds(keys: seq<string>, values: seq<Value>)
    requires |keys| == |values| && Distinct(keys)
    ensures ObjectOf(keys, values).Keys == set k | k in keys
    ensures forall i | 0 <= i < |keys| :: keys[i] in ObjectOf(keys, values) && ObjectOf(keys, values)[keys[i]] == values[i]
  {
    if keys != [] {
      ObjectOfHolds(keys[1..], values[1..]);
      assert keys == [keys[0]] + keys[1..];
      var m := ObjectOf(keys[1..], values[1..]);
      forall i | 1 <= i < |keys| ensures keys[i] in m && m[keys[i]] == values[i] && keys[i] != keys[0] {
        assert keys[1..][i - 1] == keys[i] && values[1..][i - 1] == values[i];
      }
    }
  }

  lemma FieldsOfObject(keys: seq<string>, values: seq<Value>)
    requires |keys| == |values| && Distinct(keys)
    ensures Fields(ObjectOf(keys, values), keys) == Some(values)
  {
    ObjectOfHolds(keys, values);
    hide ObjectOf;
    var f := Fields(ObjectOf(keys, values), keys);
    assert f.value == values;
  }

  lemma ObjectPrintable(keys: seq<string>, values: seq<Value>)
    requires |keys| == |values| && Distinct(keys)
    requires forall i | 0 <= i < |values| :: Printable(values[i])
    ensures Printable(Obj(ObjectOf(keys, values)))
  {
    ObjectOfHolds(keys, values);
    hide ObjectOf;
    var m := ObjectOf(keys, values);
    forall k | k in m ensures Printable(m[k]) {
      assert k in m.Keys;
      var i :| 0 <= i < |keys| && keys[i] == k;
      assert m[keys[i]] == values[i];
    }
  }

  /** A length and a first letter tell the envelope's members apart. */
  lemma EnvelopeKeysDistinct()
    ensures Distinct(ENVELOPE_KEYS)
  {
    var ks := ENVELOPE_KEYS;
    var lengths := [8, 9, 10, 20, 14, 12, 17, 11, 11, 8, 14, 12, 8, 7];
    var letters := "eteeaaaorpcctp";
    assert forall i | 0 <= i < 14 :: |ks[i]| == lengths[i] && ks[i][0] == letters[i];
    assert forall i, j | 0 <= i < j < 14 :: lengths[i] != lengths[j] || letters[i] != letters[j];
    forall i, j | 0 <= i < j < |ks| ensures ks[i] != ks[j] {
      assert lengths[i] != lengths[j] || letters[i] != letters[j];
    }
  }

  lemma PayloadKeysDistinct(kind: Kind)
    ensures Distinct(PayloadKeys(kind))
  {
    var ks := PayloadKeys(kind);
    match kind
    case InventoryItem =>
      assert |ks[0]| == 8 && |ks[1]| == 7 && |ks[2]| == 20 && |ks[3]| == 15 && |ks[4]| == 14;
    case Supplier =>
    case IngredientLot =>
      assert |ks[0]| == 6 && |ks[1]| == 11 && |ks[2]| == 7;
    case ProductionBatch =>
      assert |ks[0]| == 8 && |ks[1]| == 6;
    case Shipment =>
      assert |ks[0]| == 11 && ks[1][0] == 'b' && ks[2][0] == 'o';
  }

  // --- the round trip ------------------------------------------------------------------------------

  lemma PayloadRoundTrip(p: Payload)
    ensures PayloadFromObject(p.Kind(), PayloadObject(p)) == Ok(p)
  {
    hide ObjectOf, Fields;
    PayloadKeysDistinct(p.Kind());
    FieldsOfObject(PayloadKeys(p.Kind()), PayloadValues(p));
  }

  lemma ValuesRoundTrip(env: Envelope)
    requires FamilyOf(env.eventType, env.schemaVersion) == Ok(env.payload.Kind())
    ensures EnvelopeFromValues(EnvelopeValues(env)) == Ok(env)
  {
    hide PayloadFromObject, PayloadObject, FamilyOf, ObjectOf, Fields;
    PayloadRoundTrip(env.payload);
  }

  lemma EnvelopeRoundTrip(env: Envelope)
    requires FamilyOf(env.eventType, env.schemaVersion) == Ok(env.payload.Kind())
    ensures EnvelopeFromObject(EnvelopeObject(env)) == Ok(env)
  {
    hide ObjectOf, EnvelopeFromValues, Fields, FamilyOf, PayloadObject;
    EnvelopeKeysDistinct();
    FieldsOfObject(ENVELOPE_KEYS, EnvelopeValues(env));
    ValuesRoundTrip(env);
  }

  lemma PayloadPrintable(rules: TextRules, env: Envelope)
    requires PayloadValid(rules, env)
    ensures Printable(Obj(PayloadObject(env.payload)))
  {
    var p := env.payload;
    PayloadKeysDistinct(p.Kind());
    var vs := PayloadValues(p);
    assert forall i | 0 <= i < |vs| :: Printable(vs[i]);
    ObjectPrintable(PayloadKeys(p.Kind()), vs);
  }

  lemma EnvelopePrintable(rules: TextRules, env: Envelope)
    requires Validate(rules, env) == None
    ensures Printable(Obj(EnvelopeObject(env)))
  {
    hide PayloadObject, ObjectOf, IsUuid, IsCanonicalId, PayloadValid;
    EnvelopeKeysDistinct();
    PayloadPrintable(rules, env);
    var vs := EnvelopeValues(env);
    assert forall i | 0 <= i < |vs| :: Printable(vs[i]);
    ObjectPrintable(ENVELOPE_KEYS, vs);
  }

  /** The canonical text of a valid envelope parses back to that envelope. */
  lemma ParseCanonical(rules: TextRules, env: Envelope)
    requires Validate(rules, env) == None
    ensures Parse(rules, Canonical(env)) == Ok(env)
  {
    EnvelopePrintable(rules, env);
    DocumentRoundTrip(Obj(EnvelopeObject(env)), true);
    ScanMakesStrict(Canonical(env));
    FamilyOfName(env.payload.Kind());
    assert FamilyOf(env.eventType, env.schemaVersion) == Ok(env.payload.Kind()) by {
      hide IsUuid, IsCanonicalId, PayloadValid;
    }
    EnvelopeRoundTrip(env);
  }

  lemma ParseValidates(rules: TextRules, raw: string)
    requires Parse(rules, raw).Ok?
    ensures Validate(rules, Parse(rules, raw).value) == None
  {
    hide Validate, EnvelopeFromObject, DecodeStrict;
  }

  /** The canonical text passes the surrogate scan. */
  lemma CanonicalPassesScan(rules: TextRules, env: Envelope)
    requires Validate(rules, env) == None
    ensures Accepts(Canonical(env), false)
  {
    hide EnvelopeObject, Validate, Print, Accepts;
    EnvelopePrintable(rules, env);
    DocumentRoundTrip(Obj(EnvelopeObject(env)), true);
    ScanMakesStrict(Canonical(env));
  }

  /** Any accepted text can be replaced by its envelope's canonical text, which is never empty. */
  lemma AcceptedHasCanonical(rules: TextRules, raw: string)
    requires Parse(rules, raw).Ok?
    ensures Parse(rules, Canonical(Parse(rules, raw).value)) == Parse(rules, raw)
  {
    hide Parse, Canonical, Validate;
    ParseValidates(rules, raw);
    ParseCanonical(rules, Parse(rules, raw).value);
  }

  // --- the codec -----------------------------------------------------------------------------------

  ghost function JsonCodec(rules: TextRules, digest: string -> string): Codec {
    Codec((env: Envelope) => Validate(rules, env) == None, (raw: string) => Parse(rules, raw),
          (env: Envelope) => Canonical(env), digest)
  }

  lemma ValidIsSound(rules: TextRules, env: Envelope)
    requires Validate(rules, env) == None
    ensures Sound(env)
  {
    hide IsUuid, IsCanonicalId, FamilyOf;
  }

  /** Everything the pipeline asks of its codec, given a digest without collisions. */
  lemma JsonCodecIsLawful(rules: TextRules, digest: string -> string)
    requires forall a, b :: digest(a) == digest(b) ==> a == b
    ensures JsonCodec(rules, digest).Lawful()
  {
    hide Validate, Parse, Print, Sound, EnvelopeObject;
    var c := JsonCodec(rules, digest);
    forall env | c.valid(env) ensures Sound(env) && c.parse(c.print_(env)) == Ok(env) && c.print_(env) != "" {
      ValidIsSound(rules, env);
      ParseCanonical(rules, env);
      CanonicalNotEmpty(env);
    }
    forall raw | c.parse(raw).Ok? ensures c.valid(c.parse(raw).value) {
      ParseValidates(rules, raw);
    }
  }

  lemma CanonicalNotEmpty(env: Envelope)
    ensures Canonical(env) != ""
  {
    hide EnvelopeObject, PrintMembers, Sorted;
  }

  /** CheckIdentityConflict: same id, different canonical content. */
  predicate IdentityConflict(c: Codec, a: Envelope, b: Envelope) {
    a.eventId == b.eventId && c.Hash(a) != c.Hash(b)
  }

  /** Two valid envelopes conflict exactly when they share an id and differ anywhere. */
  lemma IdentityConflictIsDifference(rules: TextRules, digest: string -> string, a: Envelope, b: Envelope)
    requires forall x, y :: digest(x) == digest(y) ==> x == y
    requires Validate(rules, a) == None && Validate(rules, b) == None
    ensures IdentityConflict(JsonCodec(rules, digest), a, b) <==> a.eventId == b.eventId && a != b
  {
    hide Validate, Parse, Canonical;
    JsonCodecIsLawful(rules, digest);
    var c := JsonCodec(rules, digest);
    assert c.valid(a) && c.valid(b);
    if c.Hash(a) == c.Hash(b) {
      hide Codec.Hash;
      c.HashIdentifies(a, b);
    }
  }
}
