/**
 * The session state as the script holds it: one object whose entries each
 * block of the script reassigns in place. Every method is proved to leave
 * the object in the state the matching SessionSpec function computes.
 */
module App {
  import opened Wrappers
  import opened Messages
  import opened SessionSpec

  class Session {
    var apiKey: Option<string>
    var clientBound: bool
    /** The key the bound client was built with. */
    var clientKey: string
    var chatHistory: seq<Msg>
    var memory: seq<Msg>
    var loading: bool

    function Snapshot(): State
      reads this
    {
      State(apiKey, clientBound, clientKey, chatHistory, memory, loading)
    }

    ghost predicate Valid()
      reads this
    {
      Inv(Snapshot())
    }

    /** Each entry is created with its initial value when the session starts. */
    constructor ()
      ensures Snapshot() == Initial()
      ensures Valid()
    {
      apiKey := None;
      clientBound := false;
      clientKey := "";
      memory := [];
      chatHistory := [];
      loading := false;
    }

    /**
     * The sidebar key field holds `key`; `constructs` is whether building
     * the chat client with it succeeds.
     */
    method UpdateCredential(key: string, constructs: bool) returns (report: CredentialReport)
      requires Valid()
      modifies this
      ensures Valid()
      ensures CredentialResult(Snapshot(), report) == SessionSpec.UpdateCredential(old(Snapshot()), key, constructs)
      ensures chatHistory == old(chatHistory)
    {
      ghost var before := Snapshot();
      report := KeyUnchanged;
      if Some(key) != apiKey {
        apiKey := Some(key);
        if key != "" {
          if constructs {
            clientBound := true;
            clientKey := key;
            memory := [];
            report := KeyConfigured;
          } else {
            report := KeyRejected;
          }
        } else {
          clientBound := false;
          report := KeyCleared;
        }
      }
      UpdateCredentialPreservesInv(before, key, constructs);
    }

    /** The "Clear Conversation History" button. */
    method ClearHistory()
      requires Valid()
      modifies this
      ensures Valid()
      ensures Snapshot() == SessionSpec.ClearHistory(old(Snapshot()))
      ensures chatHistory == [] && memory == []
    {
      chatHistory := [];
      memory := [];
    }

    /**
     * The turn handler for chat input `input`; `outcome` is what the
     * client's `invoke` does with the request, which is returned in `sent`.
     */
    method HandleTurn(input: Option<string>, outcome: InvokeOutcome) returns (report: TurnReport, sent: Option<Request>)
      requires Valid()
      modifies this
      ensures Valid()
      ensures TurnResult(Snapshot(), report, sent) == SessionSpec.HandleTurn(old(Snapshot()), input, outcome)
    {
      ghost var before := Snapshot();
      if Submitted(input) && clientBound {
        var u := input.value;
        loading := true;
        chatHistory := chatHistory + [Msg(User, u)];
        var messages := BuildRequest(memory, u);
        sent := Some(Request(clientKey, messages));
        match outcome {
          case Success(reply) =>
            chatHistory := chatHistory + [Msg(Assistant, reply)];
            memory := memory + [Msg(User, u), Msg(Assistant, reply)];
            loading := false;
            report := Answered;
          case Failure =>
            loading := false;
            report := Failed;
        }
      } else if Submitted(input) {
        report, sent := NeedsKey, None;
      } else {
        report, sent := NoInput, None;
      }
      HandleTurnPreservesInv(before, input, outcome);
    }

    /**
     * One run of the script for the widget values and call outcomes in
     * `ev`, returning what was reported and shown along the way.
     */
    method Rerun(ev: Interaction) returns (r: RerunResult)
      requires Valid()
      modifies this
      ensures Valid()
      ensures r.state == Snapshot()
      ensures r == SessionSpec.Rerun(old(Snapshot()), ev)
    {
      var credential := UpdateCredential(ev.keyInput, ev.constructs);
      if ev.clearClicked {
        ClearHistory();
      }
      var display := Display(MessageCount(Snapshot()), Status(Snapshot()));
      var turn, sent := HandleTurn(ev.chatInput, ev.outcome);
      r := RerunResult(Snapshot(), credential, display, turn, sent);
    }
  }
}
