/** The contact messages screen: a local list of messages with a search box,
    a read / unread flag per message, a viewer that marks a message read, and
    deletion behind a confirmation dialog. */
module ContactsPage {
  import opened Wrappers
  import opened Types
  import opened Text
  import Lists

  /** A message matches a search when its sender's name, its email address or
      its subject contains the query, ignoring case. */
  predicate MessageMatches(m: ContactMessage, query: string) {
    ContainsIgnoringCase(m.name, query)
    || ContainsIgnoringCase(m.email, query)
    || ContainsIgnoringCase(m.subject, query)
  }

  /** `filteredMessages`: the matching messages in their original order. */
  function FilteredMessages(messages: seq<ContactMessage>, query: string): (r: seq<ContactMessage>)
    ensures Lists.SubsequenceOf(r, messages)
    ensures forall m :: m in r <==> m in messages && MessageMatches(m, query)
    ensures forall m :: multiset(r)[m] == if MessageMatches(m, query) then multiset(messages)[m] else 0
  {
    Lists.Filter(messages, m => MessageMatches(m, query))
  }

  /** An empty search shows every message, in order. */
  lemma EmptySearchShowsAll(messages: seq<ContactMessage>)
    ensures FilteredMessages(messages, []) == messages
  {
    forall m | m in messages ensures MessageMatches(m, []) {
      ContainsIgnoringCaseBasics(m.name);
    }
    Lists.FilterAllKept(messages, m => MessageMatches(m, []));
  }

  /** The status the read toggle sets: 'unread' for a read message, 'read' otherwise. */
  function Flip(s: MessageStatus): (t: MessageStatus)
    ensures t != s
  {
    if s == Read then Unread else Read
  }

  function MessageKey(m: ContactMessage): string { m.id }

  /** `messages.map(m => m.id === id ? {...m, status} : m)`. */
  function WithStatus(messages: seq<ContactMessage>, id: string, status: MessageStatus): (r: seq<ContactMessage>)
    ensures |r| == |messages|
    ensures forall i :: 0 <= i < |messages| && messages[i].id != id ==> r[i] == messages[i]
    ensures forall i :: 0 <= i < |messages| && messages[i].id == id ==> r[i] == messages[i].(status := status)
  {
    Lists.UpdateKey(messages, MessageKey, id, (m: ContactMessage) => m.(status := status))
  }

  /** Setting a status a second time changes nothing more: viewing a message
      that has already been marked read leaves the list as it is. */
  lemma SetStatusIdempotent(messages: seq<ContactMessage>, id: string, status: MessageStatus)
    ensures WithStatus(WithStatus(messages, id, status), id, status) == WithStatus(messages, id, status)
  {
    var once := WithStatus(messages, id, status);
    var twice := WithStatus(once, id, status);
    assert forall i :: 0 <= i < |once| ==> twice[i] == once[i];
  }

  /** Toggling a message twice restores the list, provided every message with
      its id had the same status. */
  lemma ToggleTwiceRestores(messages: seq<ContactMessage>, id: string, status: MessageStatus)
    requires forall m :: m in messages && m.id == id ==> m.status == status
    ensures WithStatus(WithStatus(messages, id, Flip(status)), id, Flip(Flip(status))) == messages
  {
    var once := WithStatus(messages, id, Flip(status));
    var twice := WithStatus(once, id, Flip(Flip(status)));
    forall i | 0 <= i < |messages| ensures twice[i] == messages[i] {
      if messages[i].id == id {
        assert messages[i] in messages;
      }
    }
  }

  predicate IsUnread(m: ContactMessage) { m.status == Unread }

  /** `unreadCount`: how many messages are unread. */
  function UnreadCount(messages: seq<ContactMessage>): (n: nat)
    ensures n == Lists.CountWhere(messages, IsUnread)
    ensures n <= |messages|
    ensures n == 0 <==> forall m :: m in messages ==> m.status == Read
  {
    var unread := Lists.Filter(messages, IsUnread);
    Lists.FilterCount(messages, IsUnread);
    assert unread == [] <==> forall m :: m in messages ==> !IsUnread(m) by {
      if unread != [] {
        assert unread[0] in unread;
      }
    }
    |unread|
  }

  /** The first element of a status update is the update of the first element,
      and the rest is the update of the rest. */
  lemma WithStatusUnfold(messages: seq<ContactMessage>, id: string, status: MessageStatus)
    requires messages != []
    ensures WithStatus(messages, id, status)[1..] == WithStatus(messages[1..], id, status)
  {
  }

  /** Marking a message read never raises the unread count. */
  lemma {:induction false} MarkReadNeverIncreases(messages: seq<ContactMessage>, id: string)
    ensures UnreadCount(WithStatus(messages, id, Read)) <= UnreadCount(messages)
  {
    if messages != [] {
      var r := WithStatus(messages, id, Read);
      WithStatusUnfold(messages, id, Read);
      MarkReadNeverIncreases(messages[1..], id);
      assert IsUnread(r[0]) ==> IsUnread(messages[0]);
    }
  }

  /** Viewing a listed unread message lowers the unread count. */
  lemma {:induction false} ViewingUnreadLowersCount(messages: seq<ContactMessage>, m: ContactMessage)
    requires m in messages && m.status == Unread
    ensures UnreadCount(WithStatus(messages, m.id, Read)) < UnreadCount(messages)
  {
    var r := WithStatus(messages, m.id, Read);
    WithStatusUnfold(messages, m.id, Read);
    if messages[0] == m {
      MarkReadNeverIncreases(messages[1..], m.id);
      assert !IsUnread(r[0]) && IsUnread(messages[0]);
    } else {
      assert m in messages[1..];
      ViewingUnreadLowersCount(messages[1..], m);
      assert IsUnread(r[0]) ==> IsUnread(messages[0]);
    }
  }

  /** The line under the heading: the number of unread messages, or that all are read. */
  datatype Subtitle = UnreadMessages(count: nat) | AllMessagesRead

  function SubtitleFor(messages: seq<ContactMessage>): (s: Subtitle)
    ensures s == AllMessagesRead <==> forall m :: m in messages ==> m.status == Read
    ensures s.UnreadMessages? ==> s.count == UnreadCount(messages) && s.count > 0
  {
    var n := UnreadCount(messages);
    if n > 0 then UnreadMessages(n) else AllMessagesRead
  }

  /** `messages.filter(m => m.id !== id)`. */
  function WithoutMessage(messages: seq<ContactMessage>, id: string): (r: seq<ContactMessage>)
    ensures Lists.SubsequenceOf(r, messages)
    ensures forall m :: m in r <==> m in messages && m.id != id
    ensures |r| == |messages| - Lists.CountKey(messages, MessageKey, id)
  {
    Lists.RemoveKey(messages, MessageKey, id)
  }

  /** Deleting a message never raises the unread count. */
  lemma {:induction false} DeleteNeverRaisesUnread(messages: seq<ContactMessage>, id: string)
    ensures UnreadCount(WithoutMessage(messages, id)) <= UnreadCount(messages)
  {
    if messages != [] {
      DeleteNeverRaisesUnread(messages[1..], id);
      var keep := (m: ContactMessage) => MessageKey(m) != id;
      assert Lists.Filter(messages, keep) ==
        if keep(messages[0]) then [messages[0]] + Lists.Filter(messages[1..], keep)
        else Lists.Filter(messages[1..], keep);
    }
  }

  class Controller {
    var messages: seq<ContactMessage>
    var searchQuery: string
    var viewingMessage: Option<ContactMessage>
    var deletingMessage: Option<ContactMessage>

    /** The state cells as the screen first renders them, over the seed list. */
    constructor (seed: seq<ContactMessage>)
      ensures messages == seed && searchQuery == []
      ensures viewingMessage == None && deletingMessage == None
    {
      messages := seed;
      searchQuery := [];
      viewingMessage := None;
      deletingMessage := None;
    }

    /** The rows the table shows. */
    function Shown(): seq<ContactMessage>
      reads this
    {
      FilteredMessages(messages, searchQuery)
    }

    method SetSearchQuery(query: string)
      modifies this`searchQuery
      ensures searchQuery == query
    {
      searchQuery := query;
    }

    /** `handleViewMessage`: an unread message is marked read in the list, then
        the viewer opens on the message as it was clicked. */
    method HandleViewMessage(m: ContactMessage)
      modifies this`messages, this`viewingMessage
      ensures m.status == Unread ==> messages == WithStatus(old(messages), m.id, Read)
      ensures m.status == Read ==> messages == old(messages)
      ensures viewingMessage == Some(m)
      ensures UnreadCount(messages) <= UnreadCount(old(messages))
      ensures m in old(messages) && m.status == Unread ==> UnreadCount(messages) < UnreadCount(old(messages))
    {
      if m.status == Unread {
        MarkReadNeverIncreases(messages, m.id);
        if m in messages {
          ViewingUnreadLowersCount(messages, m);
        }
        messages := WithStatus(messages, m.id, Read);
      }
      viewingMessage := Some(m);
    }

    /** Closing the viewer. */
    method CloseViewer()
      modifies this`viewingMessage
      ensures viewingMessage == None
    {
      viewingMessage := None;
    }

    /** `handleToggleRead`: the message and every other with its id take the
        opposite of the clicked message's status. */
    method HandleToggleRead(m: ContactMessage) returns (notice: Notice)
      modifies this`messages
      ensures messages == WithStatus(old(messages), m.id, Flip(m.status))
      ensures notice == Ok("Message marked as " + MessageStatusName(Flip(m.status)), "")
    {
      var newStatus := Flip(m.status);
      messages := WithStatus(messages, m.id, newStatus);
      notice := Ok("Message marked as " + MessageStatusName(newStatus), "");
    }

    /** The bin button of a row. */
    method StartDelete(m: ContactMessage)
      modifies this`deletingMessage
      ensures deletingMessage == Some(m)
    {
      deletingMessage := Some(m);
    }

    /** Dismissing the confirmation dialog. */
    method CancelDelete()
      modifies this`deletingMessage
      ensures deletingMessage == None
    {
      deletingMessage := None;
    }

    /** `handleDeleteMessage`: nothing happens unless a message was selected;
        then every message with its id is removed and the dialog closes. */
    method HandleDeleteMessage() returns (notice: Notice)
      modifies this`messages, this`deletingMessage
      ensures old(deletingMessage).None? ==> messages == old(messages) && deletingMessage == None && notice == Silent
      ensures old(deletingMessage).Some? ==>
        messages == WithoutMessage(old(messages), old(deletingMessage).value.id)
        && deletingMessage == None && notice == Ok("Message deleted successfully!", "")
      ensures UnreadCount(messages) <= UnreadCount(old(messages))
    {
      if deletingMessage.None? {
        return Silent;
      }
      DeleteNeverRaisesUnread(messages, deletingMessage.value.id);
      messages := WithoutMessage(messages, deletingMessage.value.id);
      deletingMessage := None;
      notice := Ok("Message deleted successfully!", "");
    }
  }
}
