/**
 * The web page's conversation: an ordered list of message records, and
 * the in-place text update the page applies by id (WebApp/src/app/page.tsx).
 */
module Conversation {

  /** Who wrote a message. */
  datatype Sender = User | Bot

  /** One `MessageData` record. */
  datatype Message = Message(id: int, text: string, sender: Sender)

  /** The id of the welcome message. */
  const WelcomeId := 1

  /** The text of the welcome message. */
  const WelcomeText := "Hello! I'm your AI assistant. How can I help you today?"

  /** The conversation every page starts with. */
  const Initial := [Message(WelcomeId, WelcomeText, Bot)]

  /** Some record of `msgs` has id `id`. */
  predicate HasId(msgs: seq<Message>, id: int) {
    exists i :: 0 <= i < |msgs| && msgs[i].id == id
  }

  /**
   * `msgs.map(msg => msg.id === id ? {...msg, text} : msg)`: every record
   * with that id gets the new text; ids, senders, order and all other
   * records stay as they were.
   */
  function UpdateText(msgs: seq<Message>, id: int, text: string): (r: seq<Message>)
    ensures |r| == |msgs|
    ensures forall i :: 0 <= i < |msgs| ==> r[i].id == msgs[i].id && r[i].sender == msgs[i].sender
    ensures forall i :: 0 <= i < |msgs| && msgs[i].id == id ==> r[i].text == text
    ensures forall i :: 0 <= i < |msgs| && msgs[i].id != id ==> r[i] == msgs[i]
  {
    if msgs == [] then []
    else
      var m := msgs[0];
      [if m.id == id then m.(text := text) else m] + UpdateText(msgs[1..], id, text)
  }

  /** An update for an id that no record has leaves the list unchanged. */
  lemma UpdateAbsentId(msgs: seq<Message>, id: int, text: string)
    requires !HasId(msgs, id)
    ensures UpdateText(msgs, id, text) == msgs
  {
    var r := UpdateText(msgs, id, text);
    forall i | 0 <= i < |msgs| ensures r[i] == msgs[i] {
      assert msgs[i].id != id;
    }
  }

  /** Of two updates of the same id, the later one wins. */
  lemma UpdateTwice(msgs: seq<Message>, id: int, a: string, b: string)
    ensures UpdateText(UpdateText(msgs, id, a), id, b) == UpdateText(msgs, id, b)
  {
    var l, r := UpdateText(UpdateText(msgs, id, a), id, b), UpdateText(msgs, id, b);
    forall i | 0 <= i < |msgs| ensures l[i] == r[i] {
    }
  }

  /** The update works record by record, so it distributes over joining two lists. */
  lemma UpdateJoin(a: seq<Message>, b: seq<Message>, id: int, text: string)
    ensures UpdateText(a + b, id, text) == UpdateText(a, id, text) + UpdateText(b, id, text)
  {
    var l, r := UpdateText(a + b, id, text), UpdateText(a, id, text) + UpdateText(b, id, text);
    forall i | 0 <= i < |l| ensures l[i] == r[i] {
      if i < |a| {
        assert (a + b)[i] == a[i];
      } else {
        assert (a + b)[i] == b[i - |a|];
      }
    }
  }
}
