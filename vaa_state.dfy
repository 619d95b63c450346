/**
 * The questionnaire session and the result token (app/lib/vaa-state.ts).
 *
 * A result token is `btoa(JSON.stringify({ a: answers, t: topicImportance }))`.
 * JSON text and base64 are not modelled character by character: a `Codec`
 * bundles the four library calls, and `Lawful` states the only facts about
 * them the source relies on (JSON round-trips the two maps, `btoa` accepts
 * exactly the Latin-1 strings, `atob` undoes `btoa`).
 */
module VaaState {
  import opened Wrappers
  import opened OrderedMaps
  import opened Percent
  import opened VaaAlgorithm

  /** The questionnaire session. */
  datatype VAAState = VAAState(
    currentIndex: int,
    answers: OrderedMap<string, UserAnswer>,   // statementId -> answer
    topicImportance: OrderedMap<string, bool>, // topicId -> isImportant
    startedAt: int,
    isComplete: bool)

  /** getInitialState; `now` stands for `Date.now()`. */
  function GetInitialState(now: int): (s: VAAState)
    ensures s.currentIndex == 0 && s.answers.keys == [] && s.topicImportance.keys == []
    ensures s.startedAt == now && !s.isComplete
  {
    VAAState(0, Empty(), Empty(), now, false)
  }

  // ------------------------------------------------------ the token codec

  /** The object `{ a, t }` a token carries: the two maps and nothing else. */
  datatype Payload = Payload(a: OrderedMap<string, UserAnswer>, t: OrderedMap<string, bool>)

  /** A property of a parsed JSON object: absent or falsy (undefined, null, false, 0, ""), or a map. */
  datatype Field<T> = Falsy | Present(value: T)

  /** What `JSON.parse` yields, as far as decodeVAAResults looks at it. */
  datatype Json =
    | JsonNull                                   // `data.a` then throws
    | JsonValue(a: Field<OrderedMap<string, UserAnswer>>, t: Field<OrderedMap<string, bool>>)
                                                 // any other value; non-objects have neither field

  /** `JSON.stringify`, `JSON.parse` (None: SyntaxError), `btoa` and `atob` (None: InvalidCharacterError). */
  datatype Codec = Codec(
    stringify: Payload -> string,
    parse: string -> Option<Json>,
    btoa: string -> Option<string>,
    atob: string -> Option<string>)

  /** Every character fits in one byte, which is what `btoa` demands. */
  predicate Latin1(s: string) {
    forall i | 0 <= i < |s| :: s[i] as int <= 0xFF
  }

  /** JSON.stringify leaves the ids as they are and adds only ASCII around them. */
  predicate PayloadLatin1(p: Payload) {
    (forall k | k in p.a.keys :: Latin1(k)) && (forall k | k in p.t.keys :: Latin1(k))
  }

  /** The facts about the library calls that the codec relies on. */
  ghost predicate Lawful(c: Codec) {
    && (forall p: Payload :: c.parse(c.stringify(p)) == Some(JsonValue(Present(p.a), Present(p.t))))
    && (forall p: Payload :: Latin1(c.stringify(p)) <==> PayloadLatin1(p))
    && (forall s: string :: c.btoa(s).Some? <==> Latin1(s))
    && (forall s: string | Latin1(s) && c.btoa(s).Some? :: c.atob(c.btoa(s).value) == Some(s))
  }

  /** encodeVAAResults; None where `btoa` throws. */
  function EncodeVAAResults(c: Codec, answers: OrderedMap<string, UserAnswer>, topicImportance: OrderedMap<string, bool>): Option<string> {
    c.btoa(c.stringify(Payload(answers, topicImportance)))
  }

  /** The value decodeVAAResults returns when it does not return null. */
  datatype Decoded = Decoded(answers: OrderedMap<string, UserAnswer>, topicImportance: OrderedMap<string, bool>)

  /** `field || {}`. */
  function OrEmpty<V>(f: Field<OrderedMap<string, V>>): (m: OrderedMap<string, V>)
    ensures f.Falsy? ==> m.keys == []
    ensures f.Present? ==> m == f.value
  {
    match f
    case Falsy => Empty()
    case Present(v) => v
  }

  /** decodeVAAResults: None (null) when `atob` or `JSON.parse` throws, or `data.a` throws on null. */
  function DecodeVAAResults(c: Codec, encoded: string): Option<Decoded> {
    match c.atob(encoded)
    case None => None
    case Some(text) =>
      match c.parse(text)
      case None => None
      case Some(JsonNull) => None
      case Some(JsonValue(a, t)) => Some(Decoded(OrEmpty(a), OrEmpty(t)))
  }

  /** Encoding succeeds exactly when every id is Latin-1. */
  lemma EncodeSucceedsIffLatin1(c: Codec, answers: OrderedMap<string, UserAnswer>, topicImportance: OrderedMap<string, bool>)
    requires Lawful(c)
    ensures EncodeVAAResults(c, answers, topicImportance).Some? <==> PayloadLatin1(Payload(answers, topicImportance))
  {
  }

  /** Decoding a token gives back the two maps it was made from, empty ones included. */
  lemma DecodeEncode(c: Codec, answers: OrderedMap<string, UserAnswer>, topicImportance: OrderedMap<string, bool>)
    requires Lawful(c)
    requires PayloadLatin1(Payload(answers, topicImportance))
    ensures EncodeVAAResults(c, answers, topicImportance).Some?
    ensures DecodeVAAResults(c, EncodeVAAResults(c, answers, topicImportance).value) == Some(Decoded(answers, topicImportance))
  {
    var text := c.stringify(Payload(answers, topicImportance));
    assert Latin1(text);
    assert c.atob(c.btoa(text).value) == Some(text);
  }

  /** A token that does not decode, or decodes to JSON null, yields null and nothing partial. */
  lemma DecodeFailsWhole(c: Codec, encoded: string)
    ensures DecodeVAAResults(c, encoded).None? <==>
      (c.atob(encoded).None? || c.parse(c.atob(encoded).value) in {None, Some(JsonNull)})
  {
  }

  /** A decoded object without `a` or `t` yields the empty map for the missing one. */
  lemma MissingFieldIsEmpty(c: Codec, encoded: string, text: string)
    requires c.atob(encoded) == Some(text)
    requires c.parse(text).Some? && c.parse(text).value.JsonValue?
    ensures DecodeVAAResults(c, encoded).Some?
    ensures c.parse(text).value.a.Falsy? ==> DecodeVAAResults(c, encoded).value.answers.keys == []
    ensures c.parse(text).value.t.Falsy? ==> DecodeVAAResults(c, encoded).value.topicImportance.keys == []
  {
  }

  // ------------------------------------------------------------- progress

  /** calculateProgress: the rounded share of statements already passed. */
  function CalculateProgress(currentIndex: nat, totalStatements: nat): (r: nat)
    ensures totalStatements == 0 ==> r == 0
    ensures totalStatements > 0 ==>
      2 * totalStatements * r <= 200 * currentIndex + totalStatements < 2 * totalStatements * r + 2 * totalStatements
    ensures currentIndex <= totalStatements ==> r <= 100
  {
    if totalStatements == 0 then 0 else RoundPercent(currentIndex, totalStatements)
  }

  // ---------------------------------------------------------- answer stats

  datatype AnswerStats = AnswerStats(agree: nat, neutral: nat, disagree: nat, skip: nat, total: nat)

  /** One iteration of the loop in getAnswerStats. */
  function CountAnswer(stats: AnswerStats, answer: UserAnswer): AnswerStats {
    var s := stats.(total := stats.total + 1);
    match answer
    case Stated(Agree) => s.(agree := s.agree + 1)
    case Stated(Neutral) => s.(neutral := s.neutral + 1)
    case Stated(Disagree) => s.(disagree := s.disagree + 1)
    case Skip => s.(skip := s.skip + 1)
  }

  /** The counters after the loop has run over `answers`. */
  function StatsOf(answers: seq<UserAnswer>): AnswerStats
    decreases |answers|
  {
    if answers == [] then AnswerStats(0, 0, 0, 0, 0)
    else CountAnswer(StatsOf(answers[..|answers| - 1]), answers[|answers| - 1])
  }

  /** getAnswerStats, looping over `Object.values(answers)`. */
  method GetAnswerStats(answers: OrderedMap<string, UserAnswer>) returns (stats: AnswerStats)
    ensures stats == StatsOf(Values(answers))
  {
    var values := Values(answers);
    stats := AnswerStats(0, 0, 0, 0, 0);
    var i := 0;
    while i < |values|
      invariant 0 <= i <= |values|
      invariant stats == StatsOf(values[..i])
    {
      assert values[..i + 1][..i] == values[..i];
      stats := CountAnswer(stats, values[i]);
      i := i + 1;
    }
    assert values[..i] == values;
  }

  /**
   * Each counter is the number of answers of its kind, `total` is the number
   * of answers, and the four kinds add up to `total`.
   */
  lemma {:induction false} StatsCount(answers: seq<UserAnswer>)
    ensures var s := StatsOf(answers);
      && s.agree == multiset(answers)[Stated(Agree)]
      && s.neutral == multiset(answers)[Stated(Neutral)]
      && s.disagree == multiset(answers)[Stated(Disagree)]
      && s.skip == multiset(answers)[Skip]
      && s.total == |answers|
      && s.agree + s.neutral + s.disagree + s.skip == s.total
    decreases |answers|
  {
    if answers != [] {
      var init := answers[..|answers| - 1];
      StatsCount(init);
      assert answers == init + [answers[|answers| - 1]];
    }
  }

  /** For a session's answer map: `total` is its number of entries. */
  lemma AnswerStatsTotal(answers: OrderedMap<string, UserAnswer>)
    ensures StatsOf(Values(answers)).total == |answers.keys|
    ensures var s := StatsOf(Values(answers)); s.agree + s.neutral + s.disagree + s.skip == |answers.keys|
  {
    StatsCount(Values(answers));
  }

  // ------------------------------------------------------ session storage

  /** The single `sessionStorage` slot under "vaa_state". */
  class SessionStore {
    var saved: Option<VAAState>

    constructor()
      ensures saved == None
    {
      saved := None;
    }

    /** saveVAAState. */
    method Save(state: VAAState)
      modifies this
      ensures saved == Some(state)
    {
      saved := Some(state);
    }

    /** loadVAAState: the stored session, or null when there is none. */
    method Load() returns (state: Option<VAAState>)
      ensures state == saved
    {
      state := saved;
    }

    /** clearVAAState. */
    method Clear()
      modifies this
      ensures saved == None
    {
      saved := None;
    }
  }
}
