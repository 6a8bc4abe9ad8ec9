/** The chat page: a message list seeded with two messages and an input
    line. Sending appends the typed text as a user message unless it is
    blank. The clock reading for the timestamp is the `now` argument. */
module Chat {
  import opened Text
  import opened Seqs

  datatype Sender = User | Supplier

  datatype Message = Message(id: int, sender: Sender, text: string, timestamp: string)

  datatype ChatState = ChatState(messages: seq<Message>, input: string)

  const Seed: seq<Message> := [
    Message(1, Supplier, "Olá! Como posso ajudá-lo hoje?", "10:30"),
    Message(2, User, "Gostaria de saber mais sobre seus produtos de aço inoxidável.", "10:32")
  ]

  const Initial: ChatState := ChatState(Seed, "")

  /** A text `trim()` leaves empty: only whitespace, or nothing. */
  predicate Blank(s: string) {
    Trim(s) == ""
  }

  /** Typing replaces the input line. */
  function Type(st: ChatState, text: string): (r: ChatState)
    ensures r.input == text && r.messages == st.messages
  {
    st.(input := text)
  }

  /** `handleSendMessage`: a blank input changes nothing; otherwise the
      input, exactly as typed, is appended as a user message numbered one
      past the list's length, and the input is cleared. */
  function Send(st: ChatState, now: string): (r: ChatState)
    ensures Blank(st.input) ==> r == st
    ensures !Blank(st.input) ==>
      && |r.messages| == |st.messages| + 1
      && r.messages[..|st.messages|] == st.messages
      && r.messages[|st.messages|] == Message(|r.messages|, User, st.input, now)
      && r.input == ""
  {
    if Blank(st.input) then st
    else st.(messages := st.messages + [Message(|st.messages| + 1, User, st.input, now)], input := "")
  }

  /** Blank means all whitespace. */
  lemma BlankIffAllSpace(s: string)
    ensures Blank(s) <==> forall i :: 0 <= i < |s| ==> IsSpace(s[i])
  {
  }

  /** Every message's id is its position counted from 1; the ids are then
      distinct, so they serve as list keys. */
  predicate IdsArePositions(msgs: seq<Message>) {
    forall i :: 0 <= i < |msgs| ==> msgs[i].id == i + 1
  }

  lemma SeedIdsArePositions()
    ensures IdsArePositions(Seed)
  {
  }

  lemma SendKeepsIdsPositions(st: ChatState, now: string)
    requires IdsArePositions(st.messages)
    ensures IdsArePositions(Send(st, now).messages)
  {
  }

  lemma PositionIdsAreDistinct(msgs: seq<Message>)
    requires IdsArePositions(msgs)
    ensures forall i, j :: 0 <= i < j < |msgs| ==> msgs[i].id != msgs[j].id
  {
  }

  /** Sending right after a send does nothing: the input is empty then. */
  lemma SendTwiceIsSendOnce(st: ChatState, now: string, later: string)
    ensures Send(Send(st, now), later) == Send(st, now)
  {
    var r := Send(st, now);
    if !Blank(st.input) {
      assert r.input == "";
      assert Blank(r.input);
    }
  }

  /** Typing each text and sending it, from a state whose ids are positions. */
  function Conversation(st: ChatState, texts: seq<string>, now: string): ChatState
    decreases |texts|
  {
    if texts == [] then st else Conversation(Send(Type(st, texts[0]), now), texts[1..], now)
  }

  /** The user messages the texts become when appended after `n` messages. */
  function UserMessages(n: int, texts: seq<string>, now: string): (r: seq<Message>)
    ensures |r| == |texts|
    ensures forall k :: 0 <= k < |texts| ==> r[k] == Message(n + k + 1, User, texts[k], now)
  {
    seq(|texts|, k requires 0 <= k < |texts| => Message(n + k + 1, User, texts[k], now))
  }

  lemma UserMessagesCons(n: int, texts: seq<string>, now: string)
    requires |texts| >= 1
    ensures [Message(n + 1, User, texts[0], now)] + UserMessages(n + 1, texts[1..], now) == UserMessages(n, texts, now)
  {
  }

  /** Typing and sending non-blank texts appends exactly those texts, in
      order, as user messages numbered on from the existing ones, leaving
      the earlier messages untouched. */
  lemma {:induction false} ConversationAppends(st: ChatState, texts: seq<string>, now: string)
    requires forall k :: 0 <= k < |texts| ==> !Blank(texts[k])
    ensures Conversation(st, texts, now).messages == st.messages + UserMessages(|st.messages|, texts, now)
    decreases |texts|
  {
    if texts == [] {
      assert st.messages + UserMessages(|st.messages|, texts, now) == st.messages;
    } else {
      var typed := Type(st, texts[0]);
      assert !Blank(typed.input);
      var next := Send(typed, now);
      var m := Message(|st.messages| + 1, User, texts[0], now);
      assert next.messages == st.messages + [m];
      ConversationAppends(next, texts[1..], now);
      UserMessagesCons(|st.messages|, texts, now);
      AppendAssoc(st.messages, [m], UserMessages(|st.messages| + 1, texts[1..], now));
    }
  }
}
