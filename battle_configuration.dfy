/**
 * The battle set-up screen of the coliseum (src/components/coliseum/BattleConfiguration.tsx):
 * the question count within the mode's bounds and the questions available, the optional
 * subject filter, the estimated duration and whether the battle may start.
 */
module BattleConfiguration {
  import opened Wrappers
  import opened JsArray
  import opened ColiseumTypes
  import opened ColiseumEngine
  import ColiseumPage

  /** `Math.min(config.max, totalQuestionsAvailable)`. */
  function EffectiveMax(mode: Mode, available: nat): (m: nat)
    ensures m <= QuestionCounts(mode).max && m <= available
    ensures m == QuestionCounts(mode).max || m == available
  {
    if QuestionCounts(mode).max <= available then QuestionCounts(mode).max else available
  }

  /** The effect that pulls a count above the maximum down to it. */
  function Clamped(count: int, effectiveMax: nat): (r: int)
    ensures r <= effectiveMax
    ensures count <= effectiveMax ==> r == count
    ensures count > effectiveMax ==> r == effectiveMax
  {
    if count > effectiveMax then effectiveMax else count
  }

  /** Once the effect has run, running it again changes nothing. */
  lemma ClampSettles(count: int, effectiveMax: nat)
    ensures Clamped(Clamped(count, effectiveMax), effectiveMax) == Clamped(count, effectiveMax)
  {
  }

  /** `canStart`: a rescue can always start, other modes need the mode's minimum. */
  predicate CanStart(mode: Mode, count: int)
  {
    mode == RescueOperation || count >= QuestionCounts(mode).min
  }

  datatype EstimatedTime = NoLimit | Minutes(minutes: int)

  /** `estimatedTime`: `Math.ceil(questionsCount * 1.5)` minutes, or no limit for a rescue. */
  function Estimate(mode: Mode, count: int): (e: EstimatedTime)
    ensures e.NoLimit? <==> mode == RescueOperation
    ensures e.Minutes? ==> 2 * e.minutes >= 3 * count && 2 * (e.minutes - 1) < 3 * count
  {
    if mode == RescueOperation then NoLimit else Minutes((3 * count + 1) / 2)
  }

  /**
   * A battle this screen lets start, with a count the effect has settled, passes the engine's
   * validation against the same number of available questions: the count is at least ten and
   * at most what is available, and a total war's fifty questions need more than 25 available.
   */
  lemma StartablePassesValidation(mode: Mode, count: int, subjects: seq<string>, available: nat)
    requires mode != RescueOperation
    requires CanStart(mode, count) && count <= EffectiveMax(mode, available)
    ensures ColiseumPage.BattleConfig(mode, count, subjects).mode == mode
    ensures ValidateColiseumConfig(ColiseumPage.BattleConfig(mode, count, subjects), available) == Valid
  {
  }

  /** When fewer questions than the mode's minimum are available, no settled count can start. */
  lemma TooFewAvailableBlocksStart(mode: Mode, count: int, available: nat)
    requires mode != RescueOperation && available < QuestionCounts(mode).min
    ensures !CanStart(mode, Clamped(count, EffectiveMax(mode, available)))
  {
  }

  class BattleConfigurationForm {
    const mode: Mode
    var questionsCount: int
    var selectedSubjects: seq<string>

    /** The screen opens on the mode's default count with no subject selected. */
    constructor (mode: Mode)
      ensures this.mode == mode && questionsCount == QuestionCounts(mode).default && selectedSubjects == []
    {
      this.mode := mode;
      questionsCount := QuestionCounts(mode).default;
      selectedSubjects := [];
    }

    /** The slider. */
    method SetQuestionsCount(count: int)
      modifies this`questionsCount
      ensures questionsCount == count
    {
      questionsCount := count;
    }

    /** The effect on `[effectiveMax, questionsCount]`. */
    method SettleCount(available: nat)
      modifies this`questionsCount
      ensures questionsCount == Clamped(old(questionsCount), EffectiveMax(mode, available))
    {
      var effectiveMax := EffectiveMax(mode, available);
      if questionsCount > effectiveMax {
        questionsCount := effectiveMax;
      }
    }

    /** `toggleSubject(subject)`. */
    method ToggleSubject(subject: string)
      modifies this`selectedSubjects
      ensures selectedSubjects == Toggled(old(selectedSubjects), subject)
    {
      if subject in selectedSubjects {
        selectedSubjects := Without(selectedSubjects, subject);
      } else {
        selectedSubjects := selectedSubjects + [subject];
      }
    }

    /** The start button: disabled unless the battle can start, else it hands over count and subjects. */
    method PressStart() returns (request: Option<(int, seq<string>)>)
      ensures request.Some? <==> CanStart(mode, questionsCount)
      ensures request.Some? ==> request.value == (questionsCount, selectedSubjects)
    {
      if CanStart(mode, questionsCount) {
        request := Some((questionsCount, selectedSubjects));
      } else {
        request := None;
      }
    }
  }
}
