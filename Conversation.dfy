/** The turns of a conversation and the request contents sent to the remote
    generative-language model. */
module Conversation {
  import opened Text

  datatype Role = User | Model

  /** One `{ role, parts: [{ text }] }` entry of the conversation history. */
  datatype Turn = Turn(role: Role, text: string)

  /** Text of the "typing" indicator shown while the remote call is pending. */
  const Placeholder: string := "..."

  const PlaceholderTurn: Turn := Turn(Model, Placeholder)

  const InstructionHead: string :=
    "You are Stoichiometrix, a friendly and casual AI-powered learning assistant focused exclusively on stoichiometry concepts in chemistry, from basic to complex. "
    + "Your goal is to help students achieve concept mastery. "
    + "If a question is outside the scope of stoichiometry or general chemistry fundamentals, politely decline and gently guide the user back to relevant topics, maintaining a friendly and encouraging tone. "
    + "Do not directly answer non-stoichiometry questions. "
    + "Do not trigger the out-of-scope response easily for greetings or simple conversational remarks. "
    + "Always reply in the requested language (English, Tagalog, Filipino, Spanish). "
    + "The user's nickname is "

  /** The fixed system instruction, templated with the user's profile. */
  function SystemInstruction(nickname: string, age: string): string {
    InstructionHead + nickname + " and age is " + age + "."
  }

  /** The fixed model turn that acknowledges the system instruction. */
  const Acknowledgement: string := "Got it! I'm ready to help students master stoichiometry."

  /** The greeting posted once the welcome form is accepted. */
  function Greeting(nickname: string): string {
    "Hello " + nickname + GreetingTail
  }

  const GreetingTail: string := ", your Stoichiometry Buddy is ready! How can I help you today?"

  /** The two labels offered right after the greeting. */
  const StartButtons: seq<string> := ["Let's get started!", "What is stoichiometry?"]

  /** Fallback when the response carries no candidate. */
  const ConnectionApology: string :=
    "Oh dear! It seems I'm having trouble connecting right now. Please check your API key and try again, or come back a bit later!"

  /** Fallback when the remote call or the reading of its response throws. */
  const ErrorApology: string :=
    "Oops! My apologies, something went wrong while I was thinking. Could you please try asking again?"

  /** `contentsWithSystemInstruction`: the system turn, its acknowledgement,
      the whole history, then the current message once more. */
  function RequestContents(nickname: string, age: string, history: seq<Turn>, message: string): (r: seq<Turn>)
    ensures |r| == |history| + 3
    ensures r[0] == Turn(User, SystemInstruction(nickname, age))
    ensures r[1] == Turn(Model, Acknowledgement)
    ensures forall i :: 0 <= i < |history| ==> r[i + 2] == history[i]
    ensures r[|r| - 1] == Turn(User, message)
  {
    [Turn(User, SystemInstruction(nickname, age)), Turn(Model, Acknowledgement)] + history + [Turn(User, message)]
  }

  /** The system instruction names both the nickname and the age. */
  lemma SystemInstructionNamesProfile(nickname: string, age: string)
    ensures Contains(SystemInstruction(nickname, age), nickname)
    ensures Contains(SystemInstruction(nickname, age), age)
  {
    ContainsInConcat(InstructionHead, nickname, " and age is " + age + ".");
    assert InstructionHead + nickname + (" and age is " + age + ".") == SystemInstruction(nickname, age);
    ContainsInConcat(InstructionHead + nickname + " and age is ", age, ".");
  }

  lemma GreetingNamesUser(nickname: string)
    ensures Contains(Greeting(nickname), nickname)
  {
    ContainsInConcat("Hello ", nickname, GreetingTail);
  }

  /** When the current message has already been pushed to history, followed by
      the placeholder, the request carries that message twice and the
      placeholder between the two copies. */
  lemma RequestRepeatsMessage(nickname: string, age: string, before: seq<Turn>, message: string)
    ensures var r := RequestContents(nickname, age, before + [Turn(User, message), PlaceholderTurn], message);
      |r| == |before| + 5 &&
      r[|before| + 2] == Turn(User, message) &&
      r[|before| + 3] == PlaceholderTurn &&
      r[|before| + 4] == Turn(User, message)
  {
    var h := before + [Turn(User, message), PlaceholderTurn];
    assert h[|before|] == Turn(User, message) && h[|before| + 1] == PlaceholderTurn;
  }

  /** Number of turns of the given role. */
  function CountRole(history: seq<Turn>, role: Role): (n: nat)
    ensures n <= |history|
  {
    if history == [] then 0
    else CountRole(history[..|history| - 1], role) + (if history[|history| - 1].role == role then 1 else 0)
  }

  lemma {:induction false} CountRoleAppend(a: seq<Turn>, b: seq<Turn>, role: Role)
    ensures CountRole(a + b, role) == CountRole(a, role) + CountRole(b, role)
    decreases |b|
  {
    if b == [] {
      assert a + b == a;
    } else {
      assert (a + b)[..|a + b| - 1] == a + b[..|b| - 1];
      CountRoleAppend(a, b[..|b| - 1], role);
    }
  }
}
