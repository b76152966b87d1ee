/**
 The pipeline with its own codec: what the composed system guarantees when events travel as canonical JSON.
 */
module Pipeline {
  import opened Events
  import opened Projection
  import opened Source
  import E = EndToEnd
  import A = AtRest
  import EC = EnvelopeCodec

  /** The JSON codec over a digest without collisions. */
  ghost predicate JsonOutside(o: Outside, rules: EC.TextRules, digest: string -> string) {
    o.codec == EC.JsonCodec(rules, digest) && forall a, b :: digest(a) == digest(b) ==> a == b
  }

  lemma JsonProjectionIsPastSource(o: Outside, rules: EC.TextRules, digest: string -> string,
                                   steps: seq<E.SystemStep>, k: ItemKey)
    requires JsonOutside(o, rules, digest) && E.Steps(steps) && k in E.RunSystem(o, steps).desk.db.items
    ensures var s := E.RunSystem(o, steps);
            && k in s.ledger.source.items
            && s.desk.db.items[k].version <= s.ledger.source.items[k].version
            && E.Held(o, steps, k, s.desk.db.items[k])
  {
    hide E.RunSystem, E.Held, EC.JsonCodec, Codec.Lawful;
    EC.JsonCodecIsLawful(rules, digest);
    E.ProjectionIsPastSource(o, steps, k);
  }

  lemma JsonRestIsExact(o: Outside, rules: EC.TextRules, digest: string -> string, steps: seq<E.SystemStep>, k: ItemKey)
    requires JsonOutside(o, rules, digest) && E.Steps(steps) && A.QuietResets(o, steps)
    requires A.Quiescent(o.codec, E.RunSystem(o, steps))
    ensures var source := E.RunSystem(o, steps).ledger.source.items;
            var projected := E.RunSystem(o, steps).desk.db.items;
            if k in source && source[k].version > 0 then k in projected && projected[k] == source[k]
            else k !in projected
  {
    hide E.RunSystem, A.Quiescent, A.QuietResets, EC.JsonCodec, Codec.Lawful;
    EC.JsonCodecIsLawful(rules, digest);
    A.RestIsExact(o, steps, k);
  }
}
