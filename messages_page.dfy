/**
 * The dashboard's messages table: the search filter over e-mail, optional
 * name and message text, and the local list updates after marking a
 * message read or deleting it, given the server's answer.
 */
module MessagesPage {
  import opened Options
  import opened Lists
  import opened Search

  datatype Message = Message(id: string, email: string, message: string, name: Option<string>, createdAt: string, read: bool)

  /** The search test of one message; a missing name never matches. */
  predicate MessageMatches(m: Message, search: string)
  {
    Matches(m.email, search) || (m.name.Some? && Matches(m.name.value, search)) || Matches(m.message, search)
  }

  /** `filteredMessages`. */
  function FilteredMessages(messages: seq<Message>, search: string): seq<Message>
  {
    Filter(messages, m => MessageMatches(m, search))
  }

  /** A message is shown iff the search matches its e-mail, its name when
      it has one, or its text, ignoring case; order is kept. */
  lemma FilteredMessagesSpec(messages: seq<Message>, search: string)
    ensures forall k :: 0 <= k < |FilteredMessages(messages, search)| ==> MessageMatches(FilteredMessages(messages, search)[k], search)
    ensures forall k :: 0 <= k < |messages| && MessageMatches(messages[k], search) ==> messages[k] in FilteredMessages(messages, search)
    ensures IsSubsequence(FilteredMessages(messages, search), messages)
  {
    FilterIsSubsequence(messages, m => MessageMatches(m, search));
  }

  /** The empty search shows every message. */
  lemma EmptySearchShowsAll(messages: seq<Message>)
    ensures FilteredMessages(messages, "") == messages
  {
    forall k | 0 <= k < |messages| ensures MessageMatches(messages[k], "") {
      EmptySearchMatches(messages[k].email);
    }
    FilterAll(messages, m => MessageMatches(m, ""));
  }

  /** The list after an ok mark-as-read: the messages with that id read. */
  function MarkedRead(messages: seq<Message>, id: string): (r: seq<Message>)
    ensures |r| == |messages|
  {
    seq(|messages|, k requires 0 <= k < |messages| => if messages[k].id == id then messages[k].(read := true) else messages[k])
  }

  /** Only the messages with that id change, and only in their read flag. */
  lemma MarkedReadSpec(messages: seq<Message>, id: string)
    ensures forall k :: 0 <= k < |messages| && messages[k].id != id ==> MarkedRead(messages, id)[k] == messages[k]
    ensures forall k :: 0 <= k < |messages| && messages[k].id == id ==> MarkedRead(messages, id)[k] == messages[k].(read := true)
  {
  }

  /** Marking read twice is marking read once. */
  lemma MarkedReadIdempotent(messages: seq<Message>, id: string)
    ensures MarkedRead(MarkedRead(messages, id), id) == MarkedRead(messages, id)
  {
  }

  /** Marking a message that is already read changes nothing, which is why
      its button is disabled. */
  lemma MarkReadOfReadIsNoOp(messages: seq<Message>, id: string)
    requires forall k :: 0 <= k < |messages| && messages[k].id == id ==> !MarkReadEnabled(messages[k])
    ensures MarkedRead(messages, id) == messages
  {
    forall k | 0 <= k < |messages|
      ensures MarkedRead(messages, id)[k] == messages[k]
    {
      if messages[k].id == id {
        assert messages[k].(read := true) == messages[k];
      }
    }
  }

  /** Whether a row's mark-as-read button is enabled. */
  predicate MarkReadEnabled(m: Message)
  {
    !m.read
  }

  /** The list after an ok delete. */
  function WithoutMessage(messages: seq<Message>, id: string): seq<Message>
  {
    Filter(messages, (m: Message) => m.id != id)
  }

  /** A delete removes exactly the messages with that id, keeping the order of the rest. */
  lemma WithoutMessageSpec(messages: seq<Message>, id: string)
    ensures forall k :: 0 <= k < |WithoutMessage(messages, id)| ==> WithoutMessage(messages, id)[k].id != id
    ensures forall k :: 0 <= k < |messages| && messages[k].id != id ==> messages[k] in WithoutMessage(messages, id)
    ensures IsSubsequence(WithoutMessage(messages, id), messages)
  {
    FilterIsSubsequence(messages, (m: Message) => m.id != id);
  }

  class Page {
    var messages: seq<Message>

    constructor ()
      ensures messages == []
    {
      messages := [];
    }

    /** The fetch effect, when the response is ok. */
    method Loaded(data: seq<Message>)
      modifies this
      ensures messages == data
    {
      messages := data;
    }

    /** `markAsRead`, given whether the response was ok. */
    method MarkAsRead(id: string, ok: bool)
      modifies this
      ensures ok ==> messages == MarkedRead(old(messages), id)
      ensures !ok ==> messages == old(messages)
    {
      if ok {
        messages := MarkedRead(messages, id);
      }
    }

    /** `deleteMessage`, given the confirmation and whether the response was ok. */
    method DeleteMessage(id: string, confirmed: bool, ok: bool)
      modifies this
      ensures confirmed && ok ==> messages == WithoutMessage(old(messages), id)
      ensures !(confirmed && ok) ==> messages == old(messages)
    {
      if confirmed && ok {
        messages := WithoutMessage(messages, id);
      }
    }
  }
}
