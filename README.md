# Stoichiometrix chat widget — conversation bookkeeping and scripted replies

This project models the logic at the core of the Stoichiometrix chat widget
(`ai_studio_code.js`). That logic is the in-memory conversation history, the
welcome-form check, the request contents sent to the remote model, and the
eight-arm scripted-reply dispatcher that runs around the remote call. The
project proves properties of that model in Dafny.

- `Text.dfy` (module `Text`): `toLowerCase`, `trim` and `includes`, restricted to ASCII.
- `Conversation.dfy` (module `Conversation`): turns (`user`/`model`, text), the fixed
  strings, and the request contents (system turn, acknowledgement, history, current message).
- `Dispatcher.dfy` (module `Dispatcher`): the remote outcome (`Reply(text)`,
  `NoCandidates`, `Threw`), the ordered table of eight arms, the `hasSentSpecificQuery`
  guard, first-match selection, and the lemmas about which arms can fire.
- `Chatbot.dfy` (module `Chatbot`): class `ChatSession`, which holds `nickname`, `age`
  and `history`. Its methods are the handlers that append to history.

Three consequences of the code's order of operations:

- The "typing" placeholder `'...'` is removed from the page only. It stays in the
  history array, so every dispatch appends two model turns.
- An accepted welcome form adds one history turn, the greeting. The button row that
  follows it is only rendered.
- Because the message is pushed before the guard runs, asking "What is stoichiometry?"
  again still falls through to the model's text, and so does the first ask (see Findings).

## Model

| member | source | states |
|---|---|---|
| Text.Lower | ai_studio_code.js:179 | `toLowerCase`: the lowered text has the input's length, and each character is its own lowering (A-Z shifted to a-z, every other character kept) |
| Text.LowerIdempotent | ai_studio_code.js:179 | lowering an already lowered text changes nothing |
| Text.Contains | ai_studio_code.js:179 | `includes`: defined as the needle occurring at some offset from 0 to the length difference |
| Text.ContainsFromOccurrence | ai_studio_code.js:179 | an occurrence at any offset makes `includes` hold |
| Text.OccurrenceFromContains | ai_studio_code.js:179 | when `includes` holds, it yields an offset where the needle occurs |
| Text.ContainsTransitive | ai_studio_code.js:179 | an occurrence of an occurrence is an occurrence |
| Text.CharOfOccurrence | ai_studio_code.js:179 | every character of a contained string is a character of the haystack |
| Text.Trim | ai_studio_code.js:116 | the trimmed text is an infix of the input with only white space before and after it; it neither starts nor ends with white space, and it is empty exactly when the input is all white space |
| Text.TrimStartDropsSpace | ai_studio_code.js:116 | the leading part removed is all white space, the rest is a suffix of the input, and it does not start with white space |
| Text.TrimEndDropsSpace | ai_studio_code.js:116 | the trailing part removed is all white space, the rest is a prefix of the input, and it does not end with white space |
| Text.TrimIdempotent | ai_studio_code.js:39-40 | trimming twice is trimming once |
| Conversation.RequestContents | ai_studio_code.js:133-144 | the request has the history's length plus three: the templated system turn, the acknowledgement, every history turn in order, and the current message last |
| Conversation.SystemInstruction | ai_studio_code.js:136 | the fixed instruction text with the nickname and the age spliced in |
| Conversation.Greeting | ai_studio_code.js:44 | the greeting text with the nickname spliced in |
| Conversation.SystemInstructionNamesProfile | ai_studio_code.js:136 | the system instruction contains both the nickname and the age |
| Conversation.GreetingNamesUser | ai_studio_code.js:44 | the greeting contains the nickname |
| Conversation.RequestRepeatsMessage | ai_studio_code.js:119-143 | once the message and the placeholder are in history, the request carries the message twice, with the placeholder between the copies |
| Conversation.CountRoleAppend | ai_studio_code.js:75-83 | role counts add up over appended histories |
| Dispatcher.HasSent | ai_studio_code.js:179 | `hasSentSpecificQuery`: some history turn's lowered text contains the lowered query |
| Dispatcher.TriggerOf | ai_studio_code.js:181-230 | each arm's test on the lowered message: substring for six arms, equality with "1 mole" and "filipino" for two |
| Dispatcher.ConditionOf | ai_studio_code.js:181-230 | each arm's test on history: not yet sent for six arms, a case-sensitive mention of "44 grams of CO2" for "1 mole", already sent "change the language?" for "filipino" |
| Dispatcher.ReplyOf | ai_studio_code.js:182-231 | each arm's scripted reply text |
| Dispatcher.Mentions | ai_studio_code.js:215 | some history turn's text contains the phrase, compared case-sensitively (the "1 mole" arm's history test) |
| Dispatcher.TriggerHolds | ai_studio_code.js:181-230 | an arm's message test: the lowered message includes the phrase, or equals it |
| Dispatcher.ConditionHolds | ai_studio_code.js:181-230 | an arm's history test: `!hasSentSpecificQuery(q)`, `hasSentSpecificQuery(q)`, or a case-sensitive mention |
| Dispatcher.Fires | ai_studio_code.js:181-230 | an arm fires when both its message test and its history test hold, the `&&` of each branch condition |
| Dispatcher.SelectArm | ai_studio_code.js:181-238 | over the arms in the order of the else-if chain (the constant `Dispatcher.Arms`), the selected arm fires, and no earlier arm fires; nothing is selected exactly when no arm fires |
| Dispatcher.Choose | ai_studio_code.js:172-249 | the reply source: failure, no candidates, the first firing arm, or the model's raw text (properties in `ChooseIsFirstMatch`) |
| Dispatcher.ChoiceText | ai_studio_code.js:182-248 | the text appended for each choice: the arm's scripted reply, the model's text, the connection apology, or the exception apology |
| Dispatcher.FinalReply | ai_studio_code.js:172-249 | the text of the one final reply that `Choose` picks |
| Dispatcher.DispatchTurns | ai_studio_code.js:127-249 | the two model turns one dispatch appends: the placeholder, then the final reply chosen with the placeholder already in history |
| Dispatcher.ChooseIsFirstMatch | ai_studio_code.js:172-249 | one final reply is chosen: the exception apology exactly when the call threw, the connection apology exactly when there was no candidate, otherwise the first firing arm's reply, or the model's text verbatim when no arm fires |
| Dispatcher.RawReplyWhenNoArmFires | ai_studio_code.js:236-238 | with no arm firing, the model's text is used unchanged |
| Dispatcher.DefinitionWinsWhenItFires | ai_studio_code.js:181-183 | when the first arm fires, its definition reply is chosen |
| Dispatcher.ArmGuardsItself | ai_studio_code.js:181-229 | each of the six `!hasSentSpecificQuery` arms is a substring arm whose trigger contains its own lowered guard phrase |
| Dispatcher.GuardTrippedByOwnMessage | ai_studio_code.js:179 | a `!hasSentSpecificQuery` arm cannot fire once the message itself is a history turn |
| Dispatcher.PushedMessageFiresOnlyExactArms | ai_studio_code.js:181-234 | after the message is pushed, only the "1 mole" and "filipino" arms can fire |
| Dispatcher.PushedMessageSelectsOnlyExactArms | ai_studio_code.js:181-234 | after the message is pushed, the chosen arm (if any) is "1 mole" or "filipino" |
| Dispatcher.ExactArmsExclusive | ai_studio_code.js:215-230 | the "1 mole" and "filipino" arms never fire on the same message |
| Dispatcher.PushedExactArmWins | ai_studio_code.js:215-234 | after the message is pushed, an exact-match arm that fires is the one chosen |
| Dispatcher.PushedMessageGetsRawReply | ai_studio_code.js:179-238 | after the message is pushed, every message that does not lower to "1 mole" or "filipino" gets the model's raw text |
| Dispatcher.PushedDispatchNeverGuarded | ai_studio_code.js:127-238 | the dispatch after a pushed message appends the placeholder, then the model's text or an exact-match arm's reply |
| Dispatcher.StoichiometryQuestionNeverScripted | ai_studio_code.js:181-187 | "What is stoichiometry?", typed or clicked, always gets the model's raw text, never the scripted definition |
| Dispatcher.FilipinoAfterLanguageQuestion | ai_studio_code.js:230-234 | once a history turn mentions "change the language?" (any case), "Filipino" gets the Filipino confirmation |
| Dispatcher.OneMoleAfterCarbonDioxideQuestion | ai_studio_code.js:215-220 | once a history turn contains "44 grams of CO2" (case-sensitive), "1 mole" gets the "Exactly!" confirmation |
| Dispatcher.GramsToMolesReplyAsksAboutCarbonDioxide | ai_studio_code.js:209-215 | the grams-to-moles reply contains the phrase that the "1 mole" arm looks for |
| Dispatcher.IntendedChoose | ai_studio_code.js:178-238 | the corrected reply source: the same selection, with the guard scanning the history as it stood before the message and the placeholder were recorded |
| Dispatcher.IntendedFirstAskIsScripted | ai_studio_code.js:178-187 | with the guard scanning only earlier history, the first "What is stoichiometry?" gets the scripted definition |
| Dispatcher.IntendedSecondAskFallsThrough | ai_studio_code.js:178-187 | with the guard scanning only earlier history, asking again falls through to the model's text |
| Dispatcher.DefinitionQuestionMatchesOnlyItsArm | ai_studio_code.js:181-234 | a message that lowers to "what is stoichiometry?" matches no other arm's trigger |
| Dispatcher.SendAddsOneUserTurn | ai_studio_code.js:115-129 | one send adds exactly one user turn and two model turns |
| Chatbot.ChatSession.constructor | ai_studio_code.js:17-19 | the profile strings start empty and the history starts empty |
| Chatbot.ChatSession.AddUserMessage | ai_studio_code.js:75-78 | appends exactly one user turn with the given text; earlier turns are unchanged |
| Chatbot.ChatSession.AddBotMessage | ai_studio_code.js:80-83 | appends exactly one model turn with the given text; earlier turns are unchanged |
| Chatbot.ChatSession.AddBotMessageWithButtons | ai_studio_code.js:85-112 | leaves history unchanged |
| Chatbot.ChatSession.AddReplyButtons | ai_studio_code.js:181-234 | the button row after a scripted reply (every arm but the Filipino one) leaves history unchanged |
| Chatbot.ChatSession.StartLearning | ai_studio_code.js:38-52 | nickname and age become the trimmed fields either way; the form is accepted exactly when neither field is all white space; on acceptance only the greeting is appended, on rejection nothing |
| Chatbot.ChatSession.SendToModel | ai_studio_code.js:127-251 | the request is built from the history ending in the placeholder; history gains the placeholder, which stays, then one final reply chosen with the placeholder in history |
| Chatbot.ChatSession.SendMessage | ai_studio_code.js:115-124 | blank input changes nothing and sends nothing; otherwise the trimmed message is pushed, then dispatched |
| Chatbot.ChatSession.ClickButton | ai_studio_code.js:104-110 | a button's value, untrimmed, is pushed, then dispatched |

## Findings

| source | as written | input that shows it | evidently intended | confidence | as-written member | corrected member |
|---|---|---|---|---|---|---|
| ai_studio_code.js:179 | `hasSentSpecificQuery` scans the history after the current message was pushed (lines 107 and 119). Each guarded arm's trigger contains its own guard phrase, so all six guarded arms are dead. | "What is stoichiometry?", typed or clicked from the greeting's button, with any earlier history | the guard looks at earlier turns only: the first ask gets the scripted definition, a repeated ask gets the model's text | high; not executed | Dispatcher.StoichiometryQuestionNeverScripted | Dispatcher.IntendedFirstAskIsScripted |

The corrected definition is `Dispatcher.IntendedChoose`. It runs the same selection over the
history as it stood before the message was recorded. `Dispatcher.IntendedSecondAskFallsThrough`
proves the second half of the intended behaviour. `ChatSession` keeps the code's order (push, then
scan), because it models the code as written.

## Left out

- Rendering: DOM nodes, `innerHTML`, scrolling, the visibility toggles, `alert`, clearing the input box, and the event-listener wiring. None of these touch the history.
- The network: `fetch`, `response.json()`, the endpoint URL and the API key from the environment. One dispatch takes the remote result as a parameter. A candidate without `content.parts[0]` counts as `Threw`.
- `generationConfig` (temperature, output-token limit) and `safetySettings`. They are opaque constants sent with the request and are not used in any logic.
- Overlapping sends and interleaved `await`s. Each dispatch is modelled as one atomic step.
- `console.error` logging.
- The button HTML, and the `textForHistory` string that `addBotMessageWithButtons` computes but never stores. The button labels are listed in `Dispatcher.ButtonsOf`. `ChatSession.AddReplyButtons` passes them to `AddBotMessageWithButtons`, which does not touch history.
- A first candidate whose text is not a string. The model's reply is always a string here.
- Text.Lower: lowers only the ASCII letters A-Z, while `toLowerCase` follows full Unicode case mapping.
- Text.Trim: strips only space, tab, line feed, carriage return, vertical tab and form feed, while `trim` also strips the other Unicode white-space and line-terminator characters.
