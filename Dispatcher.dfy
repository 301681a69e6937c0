/** The scripted-reply dispatcher: an ordered table of eight arms, checked
    first-match-wins against the incoming message and the conversation
    history before the remote model's own reply is used. */
module Dispatcher {
  import opened Text
  import opened Conversation

  datatype Option<T> = None | Some(value: T)

  /** What the remote call produced: the first candidate's text, a response
      without candidates, or an exception (network failure, unreadable JSON,
      a candidate without `content.parts[0]`). */
  datatype Outcome = Reply(text: string) | NoCandidates | Threw

  /** How an arm tests the incoming message, once lowered. */
  datatype Trigger =
    | Includes(phrase: string)   // `userMessage.toLowerCase().includes(phrase)`
    | Equals(phrase: string)     // `userMessage.toLowerCase() === phrase`

  /** How an arm tests the history. */
  datatype Condition =
    | NotYetSent(query: string)         // `!hasSentSpecificQuery(query)`
    | AlreadySent(query: string)        // `hasSentSpecificQuery(query)`
    | HistoryMentions(phrase: string)   // some history text includes `phrase`, case-sensitively

  /** Guard query of the definition arm, and its trigger. */
  const DefinitionQuestion: string := "what is stoichiometry?"

  /** Guard query shared by the two language arms. */
  const LanguageQuestion: string := "change the language?"

  /** The phrase of the grams-to-moles exercise that the "1 mole" arm looks
      for in history. */
  const CarbonDioxidePhrase: string := "44 grams of CO2"

  /** The eight scripted arms. */
  datatype Arm =
    | Definition | Basics | SolveProblem | MoleConversions | GramsToMoles
    | OneMole | ChangeLanguage | Filipino

  /** The arms in the order they are tried. */
  const Arms: seq<Arm> :=
    [Definition, Basics, SolveProblem, MoleConversions, GramsToMoles, OneMole, ChangeLanguage, Filipino]

  function TriggerOf(arm: Arm): Trigger {
    match arm
    case Definition => Includes(DefinitionQuestion)
    case Basics => Includes("show me the basics")
    case SolveProblem => Includes("i want to solve a problem")
    case MoleConversions => Includes("mole conversions")
    case GramsToMoles => Includes("tell me how to convert grams to moles")
    case OneMole => Equals("1 mole")
    case ChangeLanguage => Includes("can i " + LanguageQuestion)
    case Filipino => Equals("filipino")
  }

  function ConditionOf(arm: Arm): Condition {
    match arm
    case Definition => NotYetSent(DefinitionQuestion)
    case Basics => NotYetSent("show me the basics")
    case SolveProblem => NotYetSent("i want to solve a problem")
    case MoleConversions => NotYetSent("mole conversions")
    case GramsToMoles => NotYetSent("tell me how to convert grams to moles")
    case OneMole => HistoryMentions(CarbonDioxidePhrase)
    case ChangeLanguage => NotYetSent(LanguageQuestion)
    case Filipino => AlreadySent(LanguageQuestion)
  }

  /** The grams-to-moles lesson, up to the exercise it ends with. */
  const GramsToMolesLesson: string :=
    "To convert between grams and moles, we use the molar mass of a substance. "
    + "Here's a quick guide!\nMolar Mass of H2O is 18 g/mol. "
    + "To convert 36g of water to moles, you use this formula: Moles = grams / molar mass. "
    + "Now it's your turn! "

  /** The scripted text that replaces the model's reply. */
  function ReplyOf(arm: Arm): string {
    match arm
    case Definition =>
      "Stoichiometry is the branch of chemistry concerned with the relative quantities of reactants and products in chemical reactions. "
      + "It helps us calculate how much of each component is involved!"
    case Basics =>
      "Okay, let's start with foundational concepts like moles and molar mass. What would you like to know first?"
    case SolveProblem =>
      "Great! What kind of problem are you looking to solve? Mole conversions or balancing equations?"
    case MoleConversions =>
      "Alright! Let's start with converting grams to moles. How do I convert grams to moles?"
    case GramsToMoles =>
      GramsToMolesLesson + "Can you convert " + CarbonDioxidePhrase + " to moles?"
    case OneMole =>
      "Exactly! 44g / 44 g/mol = 1 mol of CO2. Great work! Now you can practice more problems."
    case ChangeLanguage =>
      "Yes! I can speak different languages. What language would you prefer?"
    case Filipino =>
      "Napakagaling! Simula ngayon, mag-aaral tayo ng stoichiometry sa Filipino."
  }

  /** Labels of the follow-up buttons shown after the scripted reply; they
      are rendered only and never enter history. */
  function ButtonsOf(arm: Arm): seq<string> {
    match arm
    case Definition => ["Show me the basics", "I want to solve a problem"]
    case Basics => ["What is a mole?", "What is molar mass?"]
    case SolveProblem => ["Mole conversions", "Balancing equations"]
    case MoleConversions => ["Tell me how to convert grams to moles"]
    case GramsToMoles => ["1 mole", "2 moles"]
    case OneMole => ["Try another problem", "Go back to main topics"]
    case ChangeLanguage => ["English", "Tagalog", "Filipino", "Spanish"]
    case Filipino => []
  }

  /** `hasSentSpecificQuery(query)`: some turn's lowered text includes the
      lowered query. */
  predicate HasSent(history: seq<Turn>, query: string) {
    exists t :: t in history && Contains(Lower(t.text), Lower(query))
  }

  /** Some turn's text includes `phrase`, without lowering either side. */
  predicate Mentions(history: seq<Turn>, phrase: string) {
    exists t :: t in history && Contains(t.text, phrase)
  }

  predicate TriggerHolds(trigger: Trigger, message: string) {
    match trigger
    case Includes(p) => Contains(Lower(message), p)
    case Equals(p) => Lower(message) == p
  }

  predicate ConditionHolds(condition: Condition, history: seq<Turn>) {
    match condition
    case NotYetSent(q) => !HasSent(history, q)
    case AlreadySent(q) => HasSent(history, q)
    case HistoryMentions(p) => Mentions(history, p)
  }

  predicate Fires(arm: Arm, message: string, history: seq<Turn>) {
    TriggerHolds(TriggerOf(arm), message) && ConditionHolds(ConditionOf(arm), history)
  }

  /** The index of the first arm that fires, or None when none does. */
  function SelectArm(arms: seq<Arm>, message: string, history: seq<Turn>): (r: Option<nat>)
    ensures r.Some? ==> r.value < |arms| && Fires(arms[r.value], message, history)
    ensures r.Some? ==> forall j :: 0 <= j < r.value ==> !Fires(arms[j], message, history)
    ensures r.None? <==> forall j :: 0 <= j < |arms| ==> !Fires(arms[j], message, history)
  {
    if arms == [] then None
    else if Fires(arms[0], message, history) then Some(0)
    else match SelectArm(arms[1..], message, history)
      case None => None
      case Some(k) => Some(k + 1)
  }

  /** Which of the four kinds of final reply a dispatch appends. */
  datatype Choice =
    | Scripted(arm: Arm)     // the reply of the first arm that fires
    | Raw(text: string)      // the model's text, verbatim
    | MissingCandidates      // the response had no candidate
    | Failed                 // the call or the reading of its response threw

  /** The choice made by one dispatch; `history` is the history as the
      dispatcher scans it. */
  function Choose(message: string, history: seq<Turn>, outcome: Outcome): Choice {
    match outcome
    case Threw => Failed
    case NoCandidates => MissingCandidates
    case Reply(text) =>
      match SelectArm(Arms, message, history)
      case None => Raw(text)
      case Some(k) => Scripted(Arms[k])
  }

  function ChoiceText(choice: Choice): string {
    match choice
    case Scripted(arm) => ReplyOf(arm)
    case Raw(text) => text
    case MissingCandidates => ConnectionApology
    case Failed => ErrorApology
  }

  /** The text of the one model turn that follows the placeholder. */
  function FinalReply(message: string, history: seq<Turn>, outcome: Outcome): string {
    ChoiceText(Choose(message, history, outcome))
  }

  /** Exactly one final reply: the exception apology, the no-candidates
      apology, the reply of the first arm that fires, or, when no arm fires,
      the model's text verbatim. */
  lemma ChooseIsFirstMatch(message: string, history: seq<Turn>, outcome: Outcome)
    ensures outcome.Threw? <==> Choose(message, history, outcome) == Failed
    ensures outcome.NoCandidates? <==> Choose(message, history, outcome) == MissingCandidates
    ensures outcome.Reply? ==>
      (exists k :: 0 <= k < |Arms| && Fires(Arms[k], message, history) &&
        Choose(message, history, outcome) == Scripted(Arms[k]) &&
        forall j :: 0 <= j < k ==> !Fires(Arms[j], message, history)) ||
      ((forall k :: 0 <= k < |Arms| ==> !Fires(Arms[k], message, history)) &&
        Choose(message, history, outcome) == Raw(outcome.text))
  {
    if outcome.Reply? {
      var r := SelectArm(Arms, message, history);
      if r.Some? {
        assert Fires(Arms[r.value], message, history);
      }
    }
  }

  /** When no arm fires, the model's text is appended verbatim. */
  lemma RawReplyWhenNoArmFires(message: string, history: seq<Turn>, text: string)
    requires forall arm: Arm :: !Fires(arm, message, history)
    ensures Choose(message, history, Reply(text)) == Raw(text)
  {
    assert forall j :: 0 <= j < |Arms| ==> !Fires(Arms[j], message, history);
  }

  /** An arm list whose head fires selects its head. */
  lemma HeadWins(arms: seq<Arm>, message: string, history: seq<Turn>)
    requires |arms| > 0 && Fires(arms[0], message, history)
    ensures SelectArm(arms, message, history) == Some(0)
  {
  }

  /** When the first arm fires, its reply is appended. */
  lemma DefinitionWinsWhenItFires(message: string, history: seq<Turn>, text: string)
    requires Fires(Definition, message, history)
    ensures Choose(message, history, Reply(text)) == Scripted(Definition)
  {
    HeadWins(Arms, message, history);
  }

  /** What one dispatch appends to history that held `before` when it began:
      the placeholder, which stays, then the final reply, chosen while the
      placeholder is already in history. */
  function DispatchTurns(message: string, before: seq<Turn>, outcome: Outcome): seq<Turn> {
    [PlaceholderTurn, Turn(Model, FinalReply(message, before + [PlaceholderTurn], outcome))]
  }

  // ---------------------------------------------------------------------
  // Properties of the table

  /** The arm's trigger contains its own lowered guard query. */
  predicate GuardsItself(arm: Arm) {
    TriggerOf(arm).Includes? && ConditionOf(arm).NotYetSent? &&
    Contains(TriggerOf(arm).phrase, Lower(ConditionOf(arm).query))
  }

  lemma LowerCaseContainsItsLowering(q: string)
    requires IsLowerCase(q)
    ensures Contains(q, Lower(q))
  {
    LowerOfLowerCase(q);
    ContainsSelf(q);
  }

  lemma DefinitionGuardsItself() ensures GuardsItself(Definition) {
    LowerCaseContainsItsLowering(DefinitionQuestion);
  }

  lemma BasicsGuardsItself() ensures GuardsItself(Basics) {
    LowerCaseContainsItsLowering("show me the basics");
  }

  lemma SolveProblemGuardsItself() ensures GuardsItself(SolveProblem) {
    LowerCaseContainsItsLowering("i want to solve a problem");
  }

  lemma MoleConversionsGuardsItself() ensures GuardsItself(MoleConversions) {
    LowerCaseContainsItsLowering("mole conversions");
  }

  lemma GramsToMolesGuardsItself() ensures GuardsItself(GramsToMoles) {
    LowerCaseContainsItsLowering("tell me how to convert grams to moles");
  }

  lemma ChangeLanguageGuardsItself() ensures GuardsItself(ChangeLanguage) {
    assert IsLowerCase(LanguageQuestion);
    LowerOfLowerCase(LanguageQuestion);
    ContainsInConcat("can i ", LanguageQuestion, "");
    assert "can i " + LanguageQuestion + "" == "can i " + LanguageQuestion;
  }

  /** Every `NotYetSent` arm is an `Includes` arm whose trigger contains its
      own lowered guard query. */
  lemma ArmGuardsItself(arm: Arm)
    requires ConditionOf(arm).NotYetSent?
    ensures GuardsItself(arm)
  {
    match arm
    case Definition => DefinitionGuardsItself();
    case Basics => BasicsGuardsItself();
    case SolveProblem => SolveProblemGuardsItself();
    case MoleConversions => MoleConversionsGuardsItself();
    case GramsToMoles => GramsToMolesGuardsItself();
    case ChangeLanguage => ChangeLanguageGuardsItself();
  }

  /** A `NotYetSent` arm cannot fire once the message itself is in history. */
  lemma GuardTrippedByOwnMessage(message: string, history: seq<Turn>, arm: Arm)
    requires Turn(User, message) in history
    requires ConditionOf(arm).NotYetSent?
    ensures !Fires(arm, message, history)
  {
    if Fires(arm, message, history) {
      ArmGuardsItself(arm);
      ContainsTransitive(Lower(message), TriggerOf(arm).phrase, Lower(ConditionOf(arm).query));
      assert HasSent(history, ConditionOf(arm).query) by {
        var t := Turn(User, message);
        assert t in history && Contains(Lower(t.text), Lower(ConditionOf(arm).query));
      }
      assert false;
    }
  }

  /** Once the message has been pushed to history, only an exact-match arm
      ("1 mole" or "filipino") can fire. */
  lemma PushedMessageFiresOnlyExactArms(message: string, history: seq<Turn>, arm: Arm)
    requires Turn(User, message) in history
    requires Fires(arm, message, history)
    ensures arm == OneMole || arm == Filipino
  {
    if ConditionOf(arm).NotYetSent? {
      GuardTrippedByOwnMessage(message, history, arm);
    }
  }

  /** Hence, once the message has been pushed, the arm chosen (if any) is
      an exact-match arm. */
  lemma PushedMessageSelectsOnlyExactArms(message: string, history: seq<Turn>)
    requires Turn(User, message) in history
    ensures var r := SelectArm(Arms, message, history);
      r.None? || Arms[r.value] == OneMole || Arms[r.value] == Filipino
  {
    var r := SelectArm(Arms, message, history);
    if r.Some? {
      PushedMessageFiresOnlyExactArms(message, history, Arms[r.value]);
    }
  }

  /** The two exact-match arms never fire on the same message. */
  lemma ExactArmsExclusive(message: string, history: seq<Turn>)
    ensures !(Fires(OneMole, message, history) && Fires(Filipino, message, history))
  {
    assert "1 mole" != "filipino" by {
      assert |"1 mole"| != |"filipino"|;
    }
  }

  /** Once the message has been pushed, an exact-match arm that fires is the
      one whose reply is appended. */
  lemma PushedExactArmWins(message: string, history: seq<Turn>, text: string, arm: Arm)
    requires Turn(User, message) in history
    requires (arm == OneMole || arm == Filipino) && Fires(arm, message, history)
    ensures Choose(message, history, Reply(text)) == Scripted(arm)
  {
    PushedMessageSelectsOnlyExactArms(message, history);
    ExactArmsExclusive(message, history);
    var r := SelectArm(Arms, message, history);
    assert r.Some? by {
      assert arm == Arms[5] || arm == Arms[7];
    }
  }

  /** As written, a pushed message that does not lower to "1 mole" or
      "filipino" always gets the model's raw reply. */
  lemma PushedMessageGetsRawReply(message: string, before: seq<Turn>, text: string)
    requires Lower(message) != "1 mole" && Lower(message) != "filipino"
    ensures Choose(message, before + [Turn(User, message), PlaceholderTurn], Reply(text)) == Raw(text)
  {
    var h := before + [Turn(User, message), PlaceholderTurn];
    assert h[|before|] == Turn(User, message);
    forall arm: Arm
      ensures !Fires(arm, message, h)
    {
      if Fires(arm, message, h) {
        PushedMessageFiresOnlyExactArms(message, h, arm);
      }
    }
    RawReplyWhenNoArmFires(message, h, text);
  }

  /** The dispatch that follows a pushed message appends, after the
      placeholder, the model's text or the reply of an exact-match arm, and
      never the reply of a guarded arm. */
  lemma PushedDispatchNeverGuarded(message: string, before: seq<Turn>, text: string)
    ensures var d := DispatchTurns(message, before + [Turn(User, message)], Reply(text));
      |d| == 2 && d[0] == PlaceholderTurn &&
      (d[1] == Turn(Model, text) || d[1] == Turn(Model, ReplyOf(OneMole)) || d[1] == Turn(Model, ReplyOf(Filipino)))
  {
    var h := before + [Turn(User, message)] + [PlaceholderTurn];
    assert h[|before|] == Turn(User, message);
    PushedMessageSelectsOnlyExactArms(message, h);
  }

  /** The first scripted arm never answers "What is stoichiometry?", neither
      when typed nor when its greeting button is clicked: the model's raw text
      is appended instead. */
  lemma StoichiometryQuestionNeverScripted(before: seq<Turn>, text: string)
    ensures Choose("What is stoichiometry?", before + [Turn(User, "What is stoichiometry?"), PlaceholderTurn], Reply(text)) == Raw(text)
  {
    PushedMessageGetsRawReply("What is stoichiometry?", before, text);
  }

  /** The "filipino" arm is reachable as written: once a turn mentions
      "change the language?", the message "Filipino" gets its confirmation. */
  lemma FilipinoAfterLanguageQuestion(before: seq<Turn>, text: string)
    requires HasSent(before, LanguageQuestion)
    ensures Choose("Filipino", before + [Turn(User, "Filipino"), PlaceholderTurn], Reply(text)) == Scripted(Filipino)
  {
    var h := before + [Turn(User, "Filipino"), PlaceholderTurn];
    assert h[|before|] == Turn(User, "Filipino");
    LowerConcat("F", "ilipino");
    assert IsLowerCase("ilipino");
    LowerOfLowerCase("ilipino");
    var t :| t in before && Contains(Lower(t.text), Lower(LanguageQuestion));
    assert t in h;
    assert Fires(Filipino, "Filipino", h);
    PushedExactArmWins("Filipino", h, text, Filipino);
  }

  /** The "1 mole" arm is reachable as written: once a turn mentions
      "44 grams of CO2" (with that capitalisation), "1 mole" gets its
      confirmation. */
  lemma OneMoleAfterCarbonDioxideQuestion(before: seq<Turn>, text: string)
    requires Mentions(before, CarbonDioxidePhrase)
    ensures Choose("1 mole", before + [Turn(User, "1 mole"), PlaceholderTurn], Reply(text)) == Scripted(OneMole)
  {
    var h := before + [Turn(User, "1 mole"), PlaceholderTurn];
    assert h[|before|] == Turn(User, "1 mole");
    assert IsLowerCase("1 mole");
    LowerOfLowerCase("1 mole");
    var t :| t in before && Contains(t.text, CarbonDioxidePhrase);
    assert t in h;
    assert Fires(OneMole, "1 mole", h);
    PushedExactArmWins("1 mole", h, text, OneMole);
  }

  /** The scripted question of the grams-to-moles arm is what the "1 mole"
      arm looks for in history. */
  lemma GramsToMolesReplyAsksAboutCarbonDioxide()
    ensures Mentions([Turn(Model, ReplyOf(GramsToMoles))], CarbonDioxidePhrase)
  {
    ContainsInConcat(GramsToMolesLesson + "Can you convert ", CarbonDioxidePhrase, " to moles?");
    assert Turn(Model, ReplyOf(GramsToMoles)) in [Turn(Model, ReplyOf(GramsToMoles))];
  }

  // ---------------------------------------------------------------------
  // The evidently intended guard: scan the history as it stood before the
  // current message was recorded.

  /** The final reply when the guards see only `prior`, the history before
      the message and the placeholder were appended. */
  function IntendedChoose(message: string, prior: seq<Turn>, outcome: Outcome): Choice {
    Choose(message, prior, outcome)
  }

  lemma LowerStoichiometryQuestion()
    ensures Lower("What is stoichiometry?") == DefinitionQuestion
  {
    LowerConcat("W", "hat is stoichiometry?");
    assert IsLowerCase("hat is stoichiometry?");
    LowerOfLowerCase("hat is stoichiometry?");
  }

  /** With the intended guard, the first "What is stoichiometry?" is
      answered by the scripted definition. */
  lemma IntendedFirstAskIsScripted(prior: seq<Turn>, text: string)
    requires !HasSent(prior, DefinitionQuestion)
    ensures IntendedChoose("What is stoichiometry?", prior, Reply(text)) == Scripted(Definition)
  {
    LowerStoichiometryQuestion();
    ContainsSelf(DefinitionQuestion);
    DefinitionWinsWhenItFires("What is stoichiometry?", prior, text);
  }

  /** The definition question mentions none of the other substring
      triggers: two lack a letter of it, three are longer than it. */
  lemma DefinitionQuestionLacksBasics()
    ensures !Contains(DefinitionQuestion, "show me the basics")
  {
    if Contains(DefinitionQuestion, "show me the basics") {
      CharOfOccurrence(DefinitionQuestion, "show me the basics", 12);
    }
  }

  lemma DefinitionQuestionLacksMoleConversions()
    ensures !Contains(DefinitionQuestion, "mole conversions")
  {
    if Contains(DefinitionQuestion, "mole conversions") {
      CharOfOccurrence(DefinitionQuestion, "mole conversions", 2);
    }
  }

  lemma ShorterThanPhrase(s: string, t: string)
    requires |s| < |t|
    ensures !Contains(s, t)
  {
    if Contains(s, t) {
      ContainsNoLonger(s, t);
    }
  }

  /** A message that lowers to the definition question matches the trigger of
      no other arm. */
  lemma DefinitionQuestionMatchesOnlyItsArm(message: string, arm: Arm)
    requires Lower(message) == DefinitionQuestion && arm != Definition
    ensures !TriggerHolds(TriggerOf(arm), message)
  {
    match arm
    case Basics => DefinitionQuestionLacksBasics();
    case MoleConversions => DefinitionQuestionLacksMoleConversions();
    case SolveProblem => ShorterThanPhrase(DefinitionQuestion, "i want to solve a problem");
    case GramsToMoles => ShorterThanPhrase(DefinitionQuestion, "tell me how to convert grams to moles");
    case ChangeLanguage => ShorterThanPhrase(DefinitionQuestion, "can i " + LanguageQuestion);
    case OneMole =>
    case Filipino =>
  }

  /** With the intended guard, asking again (the question now in history)
      falls through to the model's raw reply. */
  lemma IntendedSecondAskFallsThrough(prior: seq<Turn>, text: string)
    requires Turn(User, "What is stoichiometry?") in prior
    ensures IntendedChoose("What is stoichiometry?", prior, Reply(text)) == Raw(text)
  {
    var m := "What is stoichiometry?";
    LowerStoichiometryQuestion();
    forall arm: Arm
      ensures !Fires(arm, m, prior)
    {
      if arm == Definition {
        GuardTrippedByOwnMessage(m, prior, arm);
      } else {
        DefinitionQuestionMatchesOnlyItsArm(m, arm);
      }
    }
    RawReplyWhenNoArmFires(m, prior, text);
  }

  /** One send (push, then dispatch) adds one user turn and two model
      turns. */
  lemma SendAddsOneUserTurn(before: seq<Turn>, message: string, outcome: Outcome)
    ensures var after := before + [Turn(User, message)] + DispatchTurns(message, before + [Turn(User, message)], outcome);
      CountRole(after, User) == CountRole(before, User) + 1 &&
      CountRole(after, Model) == CountRole(before, Model) + 2
  {
    var d := DispatchTurns(message, before + [Turn(User, message)], outcome);
    CountRoleAppend(before, [Turn(User, message)], User);
    CountRoleAppend(before, [Turn(User, message)], Model);
    CountRoleAppend(before + [Turn(User, message)], d, User);
    CountRoleAppend(before + [Turn(User, message)], d, Model);
    assert d[..1] == [PlaceholderTurn];
  }
}
