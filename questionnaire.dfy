/**
 * The questionnaire page's session (app/routes/vaa/questionnaire.tsx).
 *
 * `Session` holds the catalogue of active statements the page was loaded with
 * and the current `VAAState`; its methods are the page's handlers. Each
 * handler is specified by a pure transition (`AfterAnswer`, `AfterPrevious`,
 * `AfterImportance`), and `Run` strings transitions together so that the
 * session invariants can be proved over any sequence of user actions.
 */
module Questionnaire {
  import opened Wrappers
  import opened OrderedMaps
  import opened VaaAlgorithm
  import opened VaaState

  /** The restore effect: a saved session is resumed only when it holds at least one answer. */
  function Restored(saved: Option<VAAState>, now: int): (s: VAAState)
    ensures saved.Some? && |saved.value.answers.keys| > 0 ==> s == saved.value
    ensures saved.None? || |saved.value.answers.keys| == 0 ==> s == GetInitialState(now)
  {
    if saved.Some? && |saved.value.answers.keys| > 0 then saved.value else GetInitialState(now)
  }

  /** `statements[state.currentIndex]`: undefined when the index is out of range. */
  function CurrentStatement(statements: seq<StatementRef>, index: int): (r: Option<StatementRef>)
    ensures r.Some? <==> 0 <= index < |statements|
    ensures r.Some? ==> r.value == statements[index]
  {
    if 0 <= index < |statements| then Some(statements[index]) else None
  }

  /** The page the final answer navigates to. */
  function ResultsUrl(token: string): string {
    "/results?data=" + token
  }

  /**
   * What a call of handleAnswer does besides updating the state: nothing (no
   * current statement), move on, navigate to the results, or throw in `btoa`.
   */
  datatype Outcome = Ignored | Advanced | Navigate(url: string) | EncodeFailed

  datatype Transition = Transition(next: VAAState, outcome: Outcome)

  /** handleAnswer. */
  function AfterAnswer(c: Codec, statements: seq<StatementRef>, s: VAAState, answer: UserAnswer): (t: Transition)
    ensures CurrentStatement(statements, s.currentIndex).None? ==> t == Transition(s, Ignored)
    ensures t.outcome.Advanced? <==> 0 <= s.currentIndex && s.currentIndex + 1 < |statements|
    ensures t.outcome.Advanced? ==> (
      && t.next.answers == Set(s.answers, statements[s.currentIndex].id, answer)
      && t.next.answers.vals == s.answers.vals[statements[s.currentIndex].id := answer]
      && t.next.currentIndex == s.currentIndex + 1
      && t.next.topicImportance == s.topicImportance
      && t.next.startedAt == s.startedAt && t.next.isComplete == s.isComplete)
    ensures !t.outcome.Advanced? ==> t.next == s
    ensures t.outcome.Navigate? || t.outcome.EncodeFailed? <==> 0 <= s.currentIndex == |statements| - 1
  {
    match CurrentStatement(statements, s.currentIndex)
    case None => Transition(s, Ignored)
    case Some(current) =>
      var newAnswers := Set(s.answers, current.id, answer);
      var newIndex := s.currentIndex + 1;
      if newIndex >= |statements| then
        match EncodeVAAResults(c, newAnswers, s.topicImportance)
        case Some(encoded) => Transition(s, Navigate(ResultsUrl(encoded)))
        case None => Transition(s, EncodeFailed)
      else
        Transition(s.(answers := newAnswers, currentIndex := newIndex), Advanced)
  }

  /** handlePrevious. */
  function AfterPrevious(s: VAAState): (r: VAAState)
    ensures s.currentIndex > 0 ==> r.currentIndex == s.currentIndex - 1
    ensures s.currentIndex <= 0 ==> r.currentIndex == s.currentIndex
    ensures r.answers == s.answers && r.topicImportance == s.topicImportance
    ensures r.startedAt == s.startedAt && r.isComplete == s.isComplete
  {
    if s.currentIndex > 0 then s.(currentIndex := s.currentIndex - 1) else s
  }

  /** handleTopicImportance. */
  function AfterImportance(statements: seq<StatementRef>, s: VAAState, checked: bool): (r: VAAState)
    ensures CurrentStatement(statements, s.currentIndex).None? ==> r == s
    ensures CurrentStatement(statements, s.currentIndex).Some? ==>
      && r.topicImportance == Set(s.topicImportance, statements[s.currentIndex].topicId, checked)
      && r.topicImportance.vals == s.topicImportance.vals[statements[s.currentIndex].topicId := checked]
    ensures r.currentIndex == s.currentIndex && r.answers == s.answers
    ensures r.startedAt == s.startedAt && r.isComplete == s.isComplete
  {
    match CurrentStatement(statements, s.currentIndex)
    case None => s
    case Some(current) => s.(topicImportance := Set(s.topicImportance, current.topicId, checked))
  }

  /**
   * On the last statement the answer is not stored in the state: the answers
   * including it travel in the token, and the results page decodes exactly
   * those answers and the current topic importance.
   */
  lemma FinalAnswerHandsOff(c: Codec, statements: seq<StatementRef>, s: VAAState, answer: UserAnswer)
    requires Lawful(c)
    requires |statements| > 0 && s.currentIndex == |statements| - 1
    requires PayloadLatin1(Payload(Set(s.answers, statements[s.currentIndex].id, answer), s.topicImportance))
    ensures var t := AfterAnswer(c, statements, s, answer);
      && t.next == s
      && t.outcome.Navigate?
      && exists token :: t.outcome.url == ResultsUrl(token) &&
           DecodeVAAResults(c, token) == Some(Decoded(Set(s.answers, statements[s.currentIndex].id, answer), s.topicImportance))
  {
    var newAnswers := Set(s.answers, statements[s.currentIndex].id, answer);
    DecodeEncode(c, newAnswers, s.topicImportance);
    var token := EncodeVAAResults(c, newAnswers, s.topicImportance).value;
    assert AfterAnswer(c, statements, s, answer).outcome.url == ResultsUrl(token);
  }

  // ------------------------------------------------- sequences of actions

  datatype Event = Answer(answer: UserAnswer) | Previous | Importance(checked: bool)

  /** The state after one user action. */
  function Step(c: Codec, statements: seq<StatementRef>, s: VAAState, e: Event): VAAState {
    match e
    case Answer(a) => AfterAnswer(c, statements, s, a).next
    case Previous => AfterPrevious(s)
    case Importance(b) => AfterImportance(statements, s, b)
  }

  /** The state after a sequence of user actions. */
  function Run(c: Codec, statements: seq<StatementRef>, s: VAAState, events: seq<Event>): VAAState
    decreases |events|
  {
    if events == [] then s
    else Step(c, statements, Run(c, statements, s, events[..|events| - 1]), events[|events| - 1])
  }

  predicate InRange(statements: seq<StatementRef>, s: VAAState) {
    0 <= s.currentIndex < |statements|
  }

  /**
   * Over any sequence of actions: the index stays in range once it is, no
   * recorded answer is ever removed, and `isComplete` and `startedAt` never change.
   */
  lemma {:induction false} RunInvariants(c: Codec, statements: seq<StatementRef>, s: VAAState, events: seq<Event>)
    ensures var r := Run(c, statements, s, events);
      && (InRange(statements, s) ==> InRange(statements, r))
      && (forall k | k in s.answers.vals :: k in r.answers.vals)
      && r.isComplete == s.isComplete && r.startedAt == s.startedAt
    decreases |events|
  {
    if events != [] {
      RunInvariants(c, statements, s, events[..|events| - 1]);
    }
  }

  /** A fresh session over a non-empty catalogue keeps `0 <= currentIndex < statements.length`. */
  lemma FreshSessionInRange(c: Codec, statements: seq<StatementRef>, now: int, events: seq<Event>)
    requires |statements| > 0
    ensures InRange(statements, Run(c, statements, GetInitialState(now), events))
    ensures !Run(c, statements, GetInitialState(now), events).isComplete
  {
    RunInvariants(c, statements, GetInitialState(now), events);
  }

  // ---------------------------------------------------------- the page

  /** The questionnaire page once mounted: its statements and its session state. */
  class Session {
    const statements: seq<StatementRef>
    var state: VAAState

    /** Mounting the page: the restore effect with `saved` as loadVAAState's result. */
    constructor Restore(statements: seq<StatementRef>, saved: Option<VAAState>, now: int)
      ensures this.statements == statements
      ensures state == Restored(saved, now)
    {
      this.statements := statements;
      if saved.Some? && |saved.value.answers.keys| > 0 {
        state := saved.value;
      } else {
        state := GetInitialState(now);
      }
    }

    method HandleAnswer(c: Codec, answer: UserAnswer) returns (outcome: Outcome)
      modifies this
      ensures Transition(state, outcome) == AfterAnswer(c, statements, old(state), answer)
    {
      if !(0 <= state.currentIndex < |statements|) {
        return Ignored;
      }
      var currentStatement := statements[state.currentIndex];
      var newAnswers := Set(state.answers, currentStatement.id, answer);
      var newIndex := state.currentIndex + 1;
      if newIndex >= |statements| {
        var encoded := EncodeVAAResults(c, newAnswers, state.topicImportance);
        if encoded.None? {
          return EncodeFailed;
        }
        outcome := Navigate(ResultsUrl(encoded.value));
      } else {
        state := state.(answers := newAnswers, currentIndex := newIndex);
        outcome := Advanced;
      }
    }

    method HandlePrevious()
      modifies this
      ensures state == AfterPrevious(old(state))
    {
      if state.currentIndex > 0 {
        state := state.(currentIndex := state.currentIndex - 1);
      }
    }

    method HandleTopicImportance(checked: bool)
      modifies this
      ensures state == AfterImportance(statements, old(state), checked)
    {
      if !(0 <= state.currentIndex < |statements|) {
        return;
      }
      var currentStatement := statements[state.currentIndex];
      state := state.(topicImportance := Set(state.topicImportance, currentStatement.topicId, checked));
    }
  }
}
