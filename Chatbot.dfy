/** The chat session: the module-level profile strings and the conversation
    history, with the handlers that update them. Rendering, the network call
    and the event wiring are not modelled; the remote result of one dispatch
    is a parameter. */
module Chatbot {
  import opened Text
  import opened Conversation
  import opened Dispatcher

  class ChatSession {
    var nickname: string
    var age: string
    var history: seq<Turn>

    constructor ()
      ensures nickname == "" && age == "" && history == []
    {
      nickname := "";
      age := "";
      history := [];
    }

    /** `addUserMessage`: one user turn at the end. */
    method AddUserMessage(text: string)
      modifies this`history
      ensures history == old(history) + [Turn(User, text)]
    {
      history := history + [Turn(User, text)];
    }

    /** `addBotMessage`: one model turn at the end. */
    method AddBotMessage(text: string)
      modifies this`history
      ensures history == old(history) + [Turn(Model, text)]
    {
      history := history + [Turn(Model, text)];
    }

    /** `addBotMessageWithButtons`: renders the buttons only. The label text
        it prepares for history is never stored, so nothing here changes. */
    method AddBotMessageWithButtons(labels: seq<string>)
      ensures history == old(history)
    {
    }

    /** The start-learning handler: both profile strings are overwritten with
        the trimmed fields whatever happens next; the form is accepted only
        when both are non-empty, and then only the greeting enters history. */
    method StartLearning(nicknameField: string, ageField: string) returns (accepted: bool)
      modifies this`nickname, this`age, this`history
      ensures nickname == Trim(nicknameField) && age == Trim(ageField)
      ensures accepted <==> !AllSpace(nicknameField) && !AllSpace(ageField)
      ensures accepted ==> history == old(history) + [Turn(Model, Greeting(nickname))]
      ensures !accepted ==> history == old(history)
    {
      nickname := Trim(nicknameField);
      age := Trim(ageField);
      accepted := nickname != "" && age != "";
      if accepted {
        AddBotMessage(Greeting(nickname));
        AddBotMessageWithButtons(StartButtons);
      }
    }

    /** `sendToGeminiAI`: pushes the placeholder, builds the request from the
        history that now ends with it, then appends exactly one final reply
        chosen from `outcome`. The placeholder stays in history. */
    method SendToModel(userMessage: string, outcome: Outcome) returns (contents: seq<Turn>)
      modifies this`history
      ensures contents == RequestContents(nickname, age, old(history) + [PlaceholderTurn], userMessage)
      ensures history == old(history) + DispatchTurns(userMessage, old(history), outcome)
    {
      AddBotMessage(Placeholder);
      contents := RequestContents(nickname, age, history, userMessage);
      var choice := Choose(userMessage, history, outcome);
      AddBotMessage(ChoiceText(choice));
      AddReplyButtons(choice);
    }

    /** The button row that follows a scripted reply; every arm but the
        Filipino confirmation renders one. */
    method AddReplyButtons(choice: Choice)
      ensures history == old(history)
    {
      if choice.Scripted? && choice.arm != Filipino {
        AddBotMessageWithButtons(ButtonsOf(choice.arm));
      }
    }

    /** `sendMessage`: input that is blank once trimmed is dropped; otherwise
        the trimmed message is pushed as a user turn and then dispatched. */
    method SendMessage(field: string, outcome: Outcome) returns (contents: Option<seq<Turn>>)
      modifies this`history
      ensures AllSpace(field) ==> contents == None && history == old(history)
      ensures !AllSpace(field) ==>
        var message := Trim(field);
        var pushed := old(history) + [Turn(User, message)];
        contents == Some(RequestContents(nickname, age, pushed + [PlaceholderTurn], message)) &&
        history == pushed + DispatchTurns(message, pushed, outcome)
    {
      var message := Trim(field);
      if message == "" {
        contents := None;
        return;
      }
      AddUserMessage(message);
      var sent := SendToModel(message, outcome);
      contents := Some(sent);
    }

    /** A click on a rendered button: its value, untrimmed, is pushed as a user
        turn and then dispatched. */
    method ClickButton(value: string, outcome: Outcome) returns (contents: seq<Turn>)
      modifies this`history
      ensures contents == RequestContents(nickname, age, old(history) + [Turn(User, value), PlaceholderTurn], value)
      ensures history == old(history) + [Turn(User, value)] + DispatchTurns(value, old(history) + [Turn(User, value)], outcome)
    {
      AddUserMessage(value);
      contents := SendToModel(value, outcome);
    }
  }
}
