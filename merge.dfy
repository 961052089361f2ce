/**
 * The partial-update merge of `user_update` (server.js): the two passes the handler runs over
 * the payload, and the single-pass merge that the comment at server.js:159 describes.
 */
module Merge {
  import opened Js

  const QUESTIONS := "questions"
  const HIGHLIGHT_FIELDS := "highlightFields"

  /** `const { highlightFields = [] } = payload`: the default applies when the key is missing or `undefined`. */
  function HighlightOf(payload: Record): Value {
    if HIGHLIGHT_FIELDS in payload && payload[HIGHLIGHT_FIELDS] != Undefined then payload[HIGHLIGHT_FIELDS] else Arr([])
  }

  /** `const { highlightFields, ...fields } = payload`: the payload without `highlightFields`. */
  function FieldsOf(payload: Record): Record {
    payload - {HIGHLIGHT_FIELDS}
  }

  /**
   * The elements of `[...(session.questions || [])]` when the stored value is an array or falsy.
   * A non-array value is read as no questions.
   */
  function PriorQuestions(session: Record): seq<Value> {
    if QUESTIONS in session && session[QUESTIONS].Arr? then session[QUESTIONS].elems else []
  }

  /** The first pass (server.js:153-155): every field of `fields` is written onto the session. */
  function CopyPass(session: Record, fields: Record): Record {
    session + fields
  }

  /** What the second pass writes for key `k`: the questions appended to the prior ones, or the payload's value. */
  function MergedValue(session: Record, payload: Record, k: string): Value
    requires k in payload
  {
    if k == QUESTIONS && payload[k].Arr? then Arr(PriorQuestions(session) + payload[k].elems) else payload[k]
  }

  /** The second pass (server.js:158-165) over every key of `payload`. */
  function AppendPass(session: Record, payload: Record): Record {
    map k | k in session.Keys + payload.Keys :: if k in payload then MergedValue(session, payload, k) else session[k]
  }

  /** The merge as the handler performs it: the copy pass over `fields`, then the append pass over `payload`. */
  function AsWrittenMerge(session: Record, payload: Record): Record {
    AppendPass(CopyPass(session, FieldsOf(payload)), payload)
  }

  /** The merge the comment describes: one pass over `fields`, appending `questions`. */
  function IntendedMerge(session: Record, payload: Record): Record {
    AppendPass(session, FieldsOf(payload))
  }

  /** The payload carries an array under `questions`. */
  predicate HasQuestionArray(payload: Record) {
    QUESTIONS in payload && payload[QUESTIONS].Arr?
  }

  /** The loop at server.js:153-155: `session[key] = fields[key]` for every key of `fields`. */
  method CopyFields(session: Record, fields: Record) returns (merged: Record)
    ensures merged == CopyPass(session, fields)
  {
    merged := session;
    var keys := fields.Keys;
    while keys != {}
      invariant keys <= fields.Keys
      invariant merged.Keys == session.Keys + (fields.Keys - keys)
      invariant forall k :: k in merged ==> merged[k] == if k in fields && k !in keys then fields[k] else session[k]
      decreases keys
    {
      var key :| key in keys;
      merged := merged[key := fields[key]];
      keys := keys - {key};
    }
  }

  /**
   * The loop at server.js:158-165: an array under `questions` is appended to the questions the
   * session holds (`session.questions || []`); every other key is overwritten.
   */
  method AppendFields(session: Record, payload: Record) returns (merged: Record)
    ensures merged == AppendPass(session, payload)
  {
    merged := session;
    var keys := payload.Keys;
    while keys != {}
      invariant keys <= payload.Keys
      invariant merged.Keys == session.Keys + (payload.Keys - keys)
      invariant forall k :: k in merged ==>
        merged[k] == if k in payload && k !in keys then MergedValue(session, payload, k) else session[k]
      decreases keys
    {
      var key :| key in keys;
      if key == QUESTIONS && payload[QUESTIONS].Arr? {
        // `questions` is visited once, so `merged` still holds the session's value here.
        merged := merged[QUESTIONS := Arr(PriorQuestions(merged) + payload[QUESTIONS].elems)];
      } else {
        merged := merged[key := payload[key]];
      }
      keys := keys - {key};
    }
  }

  /**
   * The two `forEach` loops of `user_update` (server.js:150-165) applied to the session.
   * Every payload key, `highlightFields` included, ends up holding the payload's value, except
   * that an array under `questions` ends up twice over; keys the payload lacks keep their values.
   */
  method MergePayload(session: Record, payload: Record) returns (merged: Record)
    ensures merged == AsWrittenMerge(session, payload)
    ensures merged.Keys == session.Keys + payload.Keys
    ensures forall k :: k in payload && !(k == QUESTIONS && payload[k].Arr?) ==> merged[k] == payload[k]
    ensures HasQuestionArray(payload) ==>
      merged[QUESTIONS] == Arr(payload[QUESTIONS].elems + payload[QUESTIONS].elems)
    ensures forall k :: k in session && k !in payload ==> merged[k] == session[k]
  {
    var fields := payload - {HIGHLIGHT_FIELDS};
    merged := CopyFields(session, fields);
    merged := AppendFields(merged, payload);
    if HasQuestionArray(payload) {
      AsWrittenDoublesQuestions(session, payload);
    }
  }

  /**
   * The merge as the comment at server.js:159 describes it: one pass over the payload that skips
   * `highlightFields`, appends an array under `questions` to the stored questions and overwrites
   * every other field.
   */
  method MergeSinglePass(session: Record, payload: Record) returns (merged: Record)
    ensures merged == IntendedMerge(session, payload)
  {
    merged := session;
    var keys := payload.Keys;
    while keys != {}
      invariant keys <= payload.Keys
      invariant merged.Keys == session.Keys + (payload.Keys - keys - {HIGHLIGHT_FIELDS})
      invariant forall k :: k in merged ==>
        merged[k] == if k in payload && k !in keys && k != HIGHLIGHT_FIELDS then MergedValue(session, payload, k) else session[k]
      decreases keys
    {
      var key :| key in keys;
      if key == HIGHLIGHT_FIELDS {
      } else if key == QUESTIONS && payload[QUESTIONS].Arr? {
        merged := merged[QUESTIONS := Arr(PriorQuestions(merged) + payload[QUESTIONS].elems)];
      } else {
        merged := merged[key := payload[key]];
      }
      keys := keys - {key};
    }
  }

  /** As written, an array under `questions` replaces whatever was stored by two copies of itself. */
  lemma AsWrittenDoublesQuestions(session: Record, payload: Record)
    requires HasQuestionArray(payload)
    ensures AsWrittenMerge(session, payload)[QUESTIONS] == Arr(payload[QUESTIONS].elems + payload[QUESTIONS].elems)
  {
    assert PriorQuestions(CopyPass(session, FieldsOf(payload))) == payload[QUESTIONS].elems;
  }

  /** As written, a `highlightFields` key of the payload is stored on the record. */
  lemma AsWrittenStoresHighlightFields(session: Record, payload: Record)
    requires HIGHLIGHT_FIELDS in payload
    ensures AsWrittenMerge(session, payload)[HIGHLIGHT_FIELDS] == payload[HIGHLIGHT_FIELDS]
  {
  }

  /** The intended merge appends the new questions after the stored ones, both in order. */
  lemma IntendedAppendsQuestions(session: Record, payload: Record)
    requires HasQuestionArray(payload)
    ensures IntendedMerge(session, payload)[QUESTIONS] == Arr(PriorQuestions(session) + payload[QUESTIONS].elems)
  {
  }

  /** The intended merge never writes `highlightFields` onto the record. */
  lemma IntendedKeepsHighlightFields(session: Record, payload: Record)
    ensures HIGHLIGHT_FIELDS in IntendedMerge(session, payload) <==> HIGHLIGHT_FIELDS in session
    ensures HIGHLIGHT_FIELDS in session ==> IntendedMerge(session, payload)[HIGHLIGHT_FIELDS] == session[HIGHLIGHT_FIELDS]
  {
  }

  /** Apart from `questions` and `highlightFields`, the two merges produce the same record. */
  lemma MergesAgreeElsewhere(session: Record, payload: Record, k: string)
    requires k != QUESTIONS && k != HIGHLIGHT_FIELDS
    ensures k in AsWrittenMerge(session, payload) <==> k in IntendedMerge(session, payload)
    ensures k in IntendedMerge(session, payload) ==> AsWrittenMerge(session, payload)[k] == IntendedMerge(session, payload)[k]
  {
  }

  /**
   * The two merges leave the same questions exactly when the stored questions equal the incoming
   * ones: in every other case the as-written merge loses the stored questions.
   */
  lemma {:induction false} AsWrittenAppendsOnlyOverItself(session: Record, payload: Record)
    requires HasQuestionArray(payload)
    ensures AsWrittenMerge(session, payload)[QUESTIONS] == IntendedMerge(session, payload)[QUESTIONS]
        <==> PriorQuestions(session) == payload[QUESTIONS].elems
  {
    var q := payload[QUESTIONS].elems;
    var p := PriorQuestions(session);
    AsWrittenDoublesQuestions(session, payload);
    IntendedAppendsQuestions(session, payload);
    if q + q == p + q {
      assert |p| == |q|;
      assert p == (p + q)[..|p|] == (q + q)[..|q|] == q;
    }
  }

  /** A record with questions [a, b] merged with a payload carrying [c] ends with [c, c], not [a, b, c]. */
  lemma AsWrittenLosesStoredQuestions(a: Value, b: Value, c: Value)
    ensures var session := map[QUESTIONS := Arr([a, b])];
            var payload := map[QUESTIONS := Arr([c])];
            && AsWrittenMerge(session, payload)[QUESTIONS] == Arr([c, c])
            && IntendedMerge(session, payload)[QUESTIONS] == Arr([a, b, c])
            && AsWrittenMerge(session, payload) != IntendedMerge(session, payload)
  {
    var session := map[QUESTIONS := Arr([a, b])];
    var payload := map[QUESTIONS := Arr([c])];
    AsWrittenDoublesQuestions(session, payload);
    IntendedAppendsQuestions(session, payload);
    assert [c] + [c] == [c, c];
    assert [a, b] + [c] == [a, b, c];
    assert |[c, c]| != |[a, b, c]|;
  }
}
