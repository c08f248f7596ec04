/** The messaging of backend/controllers/messageController.js: sending a
    message, the inbox (one entry per conversation, showing its latest
    message), marking a conversation read, and a conversation's history. */
module Messages {
  import opened Query
  import opened Tables

  /** The row sendMessage inserts: the caller is the sender, and a new
      message starts unread. */
  function NewMessage(id: Id, sender: Id, receiver: Id, propertyId: Id, content: string, now: int): Message {
    Message(id, sender, receiver, propertyId, content, false, now)
  }

  // ---------------------------------------------------------------- markAsRead

  /** The WHERE clause of markAsRead: messages about the property that the
      contact sent to the caller. */
  predicate ReadsAs(m: Message, propertyId: Id, contact: Id, user: Id) {
    m.propertyId == propertyId && m.senderId == contact && m.receiverId == user
  }

  function MarkOne(m: Message, propertyId: Id, contact: Id, user: Id): Message {
    if ReadsAs(m, propertyId, contact, user) then m.(isRead := true) else m
  }

  /** The messages table after markAsRead: exactly the selected rows become
      read, every other column and every other row is unchanged. */
  function MarkedRead(ms: seq<Message>, propertyId: Id, contact: Id, user: Id): (r: seq<Message>)
    ensures |r| == |ms|
    ensures forall i :: 0 <= i < |ms| ==>
      r[i].isRead == (ms[i].isRead || ReadsAs(ms[i], propertyId, contact, user))
    ensures forall i :: 0 <= i < |ms| ==> r[i].(isRead := ms[i].isRead) == ms[i]
  {
    Map(ms, m => MarkOne(m, propertyId, contact, user))
  }

  /** Opening the same conversation twice marks nothing more. */
  lemma MarkedReadIdempotent(ms: seq<Message>, propertyId: Id, contact: Id, user: Id)
    ensures MarkedRead(MarkedRead(ms, propertyId, contact, user), propertyId, contact, user)
         == MarkedRead(ms, propertyId, contact, user)
  {
    var once := MarkedRead(ms, propertyId, contact, user);
    var twice := MarkedRead(once, propertyId, contact, user);
    forall i | 0 <= i < |ms| ensures twice[i] == once[i] {
      assert ReadsAs(once[i], propertyId, contact, user) == ReadsAs(ms[i], propertyId, contact, user);
    }
  }

  /** markAsRead never turns a read message back to unread, and touches no
      message the caller sent. */
  lemma MarkedReadOnlyOwnInbox(ms: seq<Message>, propertyId: Id, contact: Id, user: Id, i: int)
    requires 0 <= i < |ms|
    ensures ms[i].isRead ==> MarkedRead(ms, propertyId, contact, user)[i].isRead
    ensures ms[i].receiverId != user ==> MarkedRead(ms, propertyId, contact, user)[i] == ms[i]
  {
  }

  // ------------------------------------------------------------ getChatHistory

  /** The WHERE clause of getChatHistory: a message about the property
      between the caller and the contact, in either direction. */
  predicate Between(m: Message, user: Id, contact: Id, propertyId: Id) {
    m.propertyId == propertyId
    && ((m.senderId == user && m.receiverId == contact) || (m.senderId == contact && m.receiverId == user))
  }

  /** ORDER BY created_at ASC. */
  function SentEarlier(a: Message, b: Message): bool {
    a.createdAt <= b.createdAt
  }

  function InChat(user: Id, contact: Id, propertyId: Id): Message -> bool {
    m => Between(m, user, contact, propertyId)
  }

  /** getChatHistory: the messages of the conversation, oldest first. */
  function ChatHistory(ms: seq<Message>, user: Id, contact: Id, propertyId: Id): (r: seq<Message>)
    ensures forall x :: multiset(r)[x] == if Between(x, user, contact, propertyId) then multiset(ms)[x] else 0
    ensures forall x :: x in r <==> x in ms && Between(x, user, contact, propertyId)
    ensures SortedBy(r, SentEarlier)
  {
    var chat := Filter(ms, InChat(user, contact, propertyId));
    var r := Sort(chat, SentEarlier);
    assert forall x :: x in r <==> x in multiset(chat);
    r
  }

  /** Both parties see the same history. */
  lemma ChatHistorySymmetric(ms: seq<Message>, user: Id, contact: Id, propertyId: Id)
    ensures multiset(ChatHistory(ms, user, contact, propertyId)) == multiset(ChatHistory(ms, contact, user, propertyId))
  {
    var a := ChatHistory(ms, user, contact, propertyId);
    var b := ChatHistory(ms, contact, user, propertyId);
    forall x ensures multiset(a)[x] == multiset(b)[x] {
      assert Between(x, user, contact, propertyId) == Between(x, contact, user, propertyId);
    }
  }

  /** A message just sent shows up in the history of its conversation, for
      the sender and for the receiver. */
  lemma SentMessageInHistory(ms: seq<Message>, id: Id, sender: Id, receiver: Id, propertyId: Id, content: string, now: int)
    ensures NewMessage(id, sender, receiver, propertyId, content, now)
      in ChatHistory(ms + [NewMessage(id, sender, receiver, propertyId, content, now)], sender, receiver, propertyId)
    ensures NewMessage(id, sender, receiver, propertyId, content, now)
      in ChatHistory(ms + [NewMessage(id, sender, receiver, propertyId, content, now)], receiver, sender, propertyId)
  {
    var ms' := ms + [NewMessage(id, sender, receiver, propertyId, content, now)];
    assert ms'[|ms|] in ms';
  }

  // ---------------------------------------------------------- getConversations

  /** `sender_id = $1 OR receiver_id = $1`. */
  predicate Involves(m: Message, user: Id) {
    m.senderId == user || m.receiverId == user
  }

  /** The other party of a message the caller takes part in: the user row
      that the join on sender or receiver keeps once `u.id != $1` drops the
      caller. */
  function ContactOf(m: Message, user: Id): Id {
    if m.senderId == user then m.receiverId else m.senderId
  }

  function Least(a: Id, b: Id): Id { if a <= b then a else b }
  function Greatest(a: Id, b: Id): Id { if a <= b then b else a }

  /** GROUP BY LEAST(sender_id, receiver_id), GREATEST(sender_id, receiver_id), property_id. */
  predicate SameGroup(a: Message, b: Message) {
    Least(a.senderId, a.receiverId) == Least(b.senderId, b.receiverId)
    && Greatest(a.senderId, a.receiverId) == Greatest(b.senderId, b.receiverId)
    && a.propertyId == b.propertyId
  }

  /** `m` has the largest id of its group among the caller's messages. */
  ghost predicate IsLatestOfGroup(ms: seq<Message>, m: Message, user: Id) {
    forall i :: 0 <= i < |ms| && Involves(ms[i], user) && SameGroup(ms[i], m) ==> ms[i].id <= m.id
  }

  /** The sub-query `SELECT MAX(id) ... GROUP BY ...`: the ids of the
      caller's messages that no message of their group outnumbers. */
  function LatestIds(ms: seq<Message>, user: Id): set<Id> {
    set k | 0 <= k < |ms| && Involves(ms[k], user)
      && (forall j :: 0 <= j < |ms| && Involves(ms[j], user) && SameGroup(ms[j], ms[k]) ==> ms[j].id <= ms[k].id) :: ms[k].id
  }

  /** LatestIds holds exactly the ids of the messages that are the latest of
      their group among the caller's messages. */
  lemma LatestIdsAreGroupMaxima(ms: seq<Message>, user: Id, id: Id)
    ensures id in LatestIds(ms, user) <==>
      exists k :: 0 <= k < |ms| && ms[k].id == id && Involves(ms[k], user) && IsLatestOfGroup(ms, ms[k], user)
  {
  }

  /** The unread_count column as written: unread messages from the contact
      to the caller, about ANY property. */
  function UnreadFrom(ms: seq<Message>, contact: Id, user: Id): (n: nat)
    ensures n > 0 <==> HasUnreadFrom(ms, contact, user)
  {
    var unread := Filter(ms, UnreadFromPred(contact, user));
    assert |unread| > 0 ==> unread[0] in unread;
    assert HasUnreadFrom(ms, contact, user) ==> |unread| > 0 by {
      if HasUnreadFrom(ms, contact, user) {
        var i :| 0 <= i < |ms| && UnreadFromPred(contact, user)(ms[i]);
        assert ms[i] in unread;
      }
    }
    |unread|
  }

  /** The count is exact: one more message adds one exactly when it is an
      unread message from the contact to the caller, whatever its property. */
  lemma UnreadFromAppend(ms: seq<Message>, m: Message, contact: Id, user: Id)
    ensures UnreadFrom(ms + [m], contact, user)
         == UnreadFrom(ms, contact, user) + (if UnreadFromPred(contact, user)(m) then 1 else 0)
  {
    FilterAppend(ms, m, UnreadFromPred(contact, user));
  }

  /** Some message from the contact to the caller is unread. */
  predicate HasUnreadFrom(ms: seq<Message>, contact: Id, user: Id) {
    exists i :: 0 <= i < |ms| && UnreadFromPred(contact, user)(ms[i])
  }

  function UnreadFromPred(contact: Id, user: Id): Message -> bool {
    (m: Message) => m.senderId == contact && m.receiverId == user && !m.isRead
  }

  /** The unread count the inbox evidently means: unread messages of this
      conversation only, the set that markAsRead clears. */
  function UnreadInConversation(ms: seq<Message>, contact: Id, user: Id, propertyId: Id): (n: nat)
    ensures n <= UnreadFrom(ms, contact, user)
    ensures n > 0 <==> HasUnreadHere(ms, contact, user, propertyId)
  {
    var theirs := Filter(ms, UnreadFromPred(contact, user));
    var here := Filter(ms, UnreadHerePred(contact, user, propertyId));
    FilterTwice(ms, UnreadFromPred(contact, user), AboutProperty(propertyId), UnreadHerePred(contact, user, propertyId));
    assert |here| > 0 ==> here[0] in here;
    assert HasUnreadHere(ms, contact, user, propertyId) ==> |here| > 0 by {
      if HasUnreadHere(ms, contact, user, propertyId) {
        var i :| 0 <= i < |ms| && UnreadHerePred(contact, user, propertyId)(ms[i]);
        assert ms[i] in here;
      }
    }
    |Filter(theirs, AboutProperty(propertyId))|
  }

  /** The corrected count is exact: one more message adds one exactly when
      it is an unread message from the contact to the caller about this
      property. */
  lemma UnreadInConversationAppend(ms: seq<Message>, m: Message, contact: Id, user: Id, propertyId: Id)
    ensures UnreadInConversation(ms + [m], contact, user, propertyId)
         == UnreadInConversation(ms, contact, user, propertyId)
            + (if UnreadHerePred(contact, user, propertyId)(m) then 1 else 0)
  {
    var here := UnreadHerePred(contact, user, propertyId);
    FilterTwice(ms, UnreadFromPred(contact, user), AboutProperty(propertyId), here);
    FilterTwice(ms + [m], UnreadFromPred(contact, user), AboutProperty(propertyId), here);
    FilterAppend(ms, m, here);
  }

  /** Some message of this conversation from the contact to the caller is
      unread. */
  predicate HasUnreadHere(ms: seq<Message>, contact: Id, user: Id, propertyId: Id) {
    exists i :: 0 <= i < |ms| && UnreadHerePred(contact, user, propertyId)(ms[i])
  }

  function AboutProperty(propertyId: Id): Message -> bool {
    (m: Message) => m.propertyId == propertyId
  }

  function UnreadHerePred(contact: Id, user: Id, propertyId: Id): Message -> bool {
    (m: Message) => m.senderId == contact && m.receiverId == user && !m.isRead && m.propertyId == propertyId
  }

  /** One inbox entry. The property title comes from the joined property
      row; the conversation list only lists messages whose property exists. */
  datatype Conversation = Conversation(
    contactId: Id,
    propertyId: Id,
    propertyTitle: string,
    lastMessage: string,
    createdAt: int,
    unreadCount: nat)

  function TitleOf(ps: seq<Property>, propertyId: Id): string {
    match FindProperty(ps, propertyId)
    case Some(p) => p.listing.title
    case None => ""
  }

  /** The row the SELECT list builds from a message, with the unread count
      as written. */
  function Entry(ms: seq<Message>, ps: seq<Property>, user: Id, m: Message): Conversation {
    var contact := ContactOf(m, user);
    Conversation(contact, m.propertyId, TitleOf(ps, m.propertyId), m.content, m.createdAt, UnreadFrom(ms, contact, user))
  }

  /** The WHERE clause and the joins of getConversations: the caller takes
      part, the other party is not the caller, the message is its group's
      latest, and its property row exists. */
  predicate Listed(ms: seq<Message>, ps: seq<Property>, user: Id, m: Message) {
    Involves(m, user) && ContactOf(m, user) != user && m.id in LatestIds(ms, user) && PropertyExists(ps, m.propertyId)
  }

  function ListedPred(ms: seq<Message>, ps: seq<Property>, user: Id): Message -> bool {
    m => Listed(ms, ps, user, m)
  }

  function ToEntry(ms: seq<Message>, ps: seq<Property>, user: Id): Message -> Conversation {
    m => Entry(ms, ps, user, m)
  }

  /** ORDER BY m.created_at DESC. */
  function NewerFirst(a: Conversation, b: Conversation): bool {
    a.createdAt >= b.createdAt
  }

  /** The SELECT of getConversations before ordering: one row per listed
      message, in table order. */
  function Entries(ms: seq<Message>, ps: seq<Property>, user: Id): (r: seq<Conversation>)
    ensures forall e :: e in r ==> e.contactId != user
    ensures forall e :: e in r ==> exists m :: m in ms && Listed(ms, ps, user, m) && e == Entry(ms, ps, user, m)
    ensures forall m :: m in ms && Listed(ms, ps, user, m) ==> Entry(ms, ps, user, m) in r
  {
    var listed := ListedPred(ms, ps, user);
    var toEntry := ToEntry(ms, ps, user);
    MapFilterMembers(ms, listed, toEntry);
    var r := Map(Filter(ms, listed), toEntry);
    forall e | e in r
      ensures e.contactId != user
      ensures exists m :: m in ms && Listed(ms, ps, user, m) && e == Entry(ms, ps, user, m)
    {
      var m :| m in ms && listed(m) && e == toEntry(m);
      assert Listed(ms, ps, user, m) && e == Entry(ms, ps, user, m);
    }
    forall m | m in ms && Listed(ms, ps, user, m) ensures Entry(ms, ps, user, m) in r {
      assert listed(m) && toEntry(m) == Entry(ms, ps, user, m);
    }
    r
  }

  /** getConversations: an entry for every listed message and nothing else,
      newest first; the contact is never the caller. */
  function Conversations(ms: seq<Message>, ps: seq<Property>, user: Id): (r: seq<Conversation>)
    ensures forall e :: e in r ==> e.contactId != user
    ensures forall e :: e in r ==> exists m :: m in ms && Listed(ms, ps, user, m) && e == Entry(ms, ps, user, m)
    ensures forall m :: m in ms && Listed(ms, ps, user, m) ==> Entry(ms, ps, user, m) in r
    ensures SortedBy(r, NewerFirst)
  {
    var entries := Entries(ms, ps, user);
    var r := Sort(entries, NewerFirst);
    forall e | e in r ensures e in entries {
      assert e in multiset(entries);
    }
    forall e | e in entries ensures e in r {
      assert e in multiset(r);
    }
    r
  }

  function ConversationKey(e: Conversation): (Id, Id) {
    (e.contactId, e.propertyId)
  }

  /** With distinct message ids, a listed message is the latest of its group. */
  lemma ListedIsLatest(ms: seq<Message>, ps: seq<Property>, user: Id, m: Message)
    requires DistinctKeys(ms, MessageKey)
    requires m in ms && Listed(ms, ps, user, m)
    ensures IsLatestOfGroup(ms, m, user)
  {
    LatestIdsAreGroupMaxima(ms, user, m.id);
    var k :| 0 <= k < |ms| && ms[k].id == m.id && Involves(ms[k], user) && IsLatestOfGroup(ms, ms[k], user);
    var k' :| 0 <= k' < |ms| && ms[k'] == m;
    assert MessageKey(ms[k]) == MessageKey(ms[k']);
    assert k == k';
  }

  /** Two different listed messages belong to different groups. */
  lemma ListedDifferentGroups(ms: seq<Message>, ps: seq<Property>, user: Id, a: Message, b: Message)
    requires DistinctKeys(ms, MessageKey)
    requires a in ms && Listed(ms, ps, user, a)
    requires b in ms && Listed(ms, ps, user, b)
    requires a.id != b.id
    ensures ConversationKey(Entry(ms, ps, user, a)) != ConversationKey(Entry(ms, ps, user, b))
  {
    ListedIsLatest(ms, ps, user, a);
    ListedIsLatest(ms, ps, user, b);
    var i :| 0 <= i < |ms| && ms[i] == a;
    var j :| 0 <= j < |ms| && ms[j] == b;
    assert SameGroup(a, b) ==> b.id <= a.id && a.id <= b.id;
    assert ConversationKey(Entry(ms, ps, user, a)) == ConversationKey(Entry(ms, ps, user, b)) ==> SameGroup(a, b);
  }

  /** The inbox shows each (contact, property) conversation at most once. */
  lemma ConversationsOnePerContactAndProperty(ms: seq<Message>, ps: seq<Property>, user: Id)
    requires DistinctKeys(ms, MessageKey)
    ensures DistinctKeys(Conversations(ms, ps, user), ConversationKey)
  {
    var listed := Filter(ms, ListedPred(ms, ps, user));
    var entries := Entries(ms, ps, user);
    assert entries == Map(listed, ToEntry(ms, ps, user));
    DistinctKeysFilter(ms, MessageKey, ListedPred(ms, ps, user));
    forall i, j | 0 <= i < j < |entries| ensures ConversationKey(entries[i]) != ConversationKey(entries[j]) {
      assert listed[i] in listed && listed[j] in listed;
      assert ListedPred(ms, ps, user)(listed[i]) && ListedPred(ms, ps, user)(listed[j]);
      assert MessageKey(listed[i]) != MessageKey(listed[j]);
      ListedDifferentGroups(ms, ps, user, listed[i], listed[j]);
    }
    DistinctKeysPermutation(entries, Conversations(ms, ps, user), ConversationKey);
  }

  /** Every entry shows the conversation's latest message: no message of
      the same conversation has a larger id. */
  lemma ConversationShowsLatest(ms: seq<Message>, ps: seq<Property>, user: Id, e: Conversation)
    requires DistinctKeys(ms, MessageKey)
    requires e in Conversations(ms, ps, user)
    ensures exists m :: m in ms && e == Entry(ms, ps, user, m) && IsLatestOfGroup(ms, m, user)
  {
    var m :| m in ms && Listed(ms, ps, user, m) && e == Entry(ms, ps, user, m);
    ListedIsLatest(ms, ps, user, m);
  }

  /** `ms[k]` has the largest id among the caller's first `n` messages of
      the group of `g`. */
  ghost predicate TopOfGroup(ms: seq<Message>, user: Id, g: Message, n: int, k: int) {
    && 0 <= k < n <= |ms|
    && Involves(ms[k], user) && SameGroup(ms[k], g)
    && forall j :: 0 <= j < n && Involves(ms[j], user) && SameGroup(ms[j], g) ==> ms[j].id <= ms[k].id
  }

  /** A group with a message of the caller has a message with the largest id. */
  lemma {:induction false} GroupHasTop(ms: seq<Message>, user: Id, g: Message, n: int)
    requires 0 <= n <= |ms|
    requires exists i :: 0 <= i < n && Involves(ms[i], user) && SameGroup(ms[i], g)
    ensures exists k :: TopOfGroup(ms, user, g, n, k)
    decreases n
  {
    if exists i :: 0 <= i < n - 1 && Involves(ms[i], user) && SameGroup(ms[i], g) {
      GroupHasTop(ms, user, g, n - 1);
      var k :| TopOfGroup(ms, user, g, n - 1, k);
      if Involves(ms[n - 1], user) && SameGroup(ms[n - 1], g) && ms[n - 1].id > ms[k].id {
        assert TopOfGroup(ms, user, g, n, n - 1);
      } else {
        assert TopOfGroup(ms, user, g, n, k);
      }
    } else {
      assert TopOfGroup(ms, user, g, n, n - 1);
    }
  }

  /** Messages of one group that both involve the caller have the same other
      party. */
  lemma SameGroupSameContact(a: Message, b: Message, user: Id)
    requires Involves(a, user) && Involves(b, user) && SameGroup(a, b)
    requires ContactOf(a, user) != user
    ensures ContactOf(b, user) == ContactOf(a, user)
  {
  }

  /** Every conversation the caller takes part in, with another party and
      about an existing property, has its entry in the inbox. */
  lemma ConversationsListEveryConversation(ms: seq<Message>, ps: seq<Property>, user: Id, m: Message)
    requires m in ms && Involves(m, user) && ContactOf(m, user) != user && PropertyExists(ps, m.propertyId)
    ensures exists e :: e in Conversations(ms, ps, user) && e.contactId == ContactOf(m, user) && e.propertyId == m.propertyId
  {
    var i :| 0 <= i < |ms| && ms[i] == m;
    assert SameGroup(ms[i], m);
    GroupHasTop(ms, user, m, |ms|);
    var k :| TopOfGroup(ms, user, m, |ms|, k);
    var t := ms[k];
    forall j | 0 <= j < |ms| && Involves(ms[j], user) && SameGroup(ms[j], t) ensures ms[j].id <= t.id {
      assert SameGroup(ms[j], m);
    }
    assert t.id in LatestIds(ms, user);
    SameGroupSameContact(m, t, user);
    assert Listed(ms, ps, user, t);
    assert Entry(ms, ps, user, t) in Conversations(ms, ps, user);
  }

  /** Opening a conversation (markAsRead) clears that conversation's unread
      count. */
  lemma OpeningClearsConversation(ms: seq<Message>, propertyId: Id, contact: Id, user: Id)
    ensures UnreadInConversation(MarkedRead(ms, propertyId, contact, user), contact, user, propertyId) == 0
  {
    var marked := MarkedRead(ms, propertyId, contact, user);
    var here := Filter(marked, UnreadHerePred(contact, user, propertyId));
    FilterTwice(marked, UnreadFromPred(contact, user), AboutProperty(propertyId), UnreadHerePred(contact, user, propertyId));
    forall i | 0 <= i < |marked| ensures !UnreadHerePred(contact, user, propertyId)(marked[i]) {
      assert ReadsAs(marked[i], propertyId, contact, user) == ReadsAs(ms[i], propertyId, contact, user);
    }
    forall x ensures multiset(here)[x] == 0 {
      assert x in marked ==> !UnreadHerePred(contact, user, propertyId)(x);
    }
    assert multiset(here) == multiset{};
  }

  /** The unread count as written is not cleared by opening the
      conversation: a contact who wrote about two properties still shows
      an unread message on the entry the caller just opened. */
  lemma UnreadCountSpansProperties()
    ensures var ms := [NewMessage(1, 5, 3, 1, "about the flat", 0), NewMessage(2, 5, 3, 2, "about the house", 1)];
            var afterOpen := MarkedRead(ms, 1, 5, 3);
            UnreadFrom(afterOpen, 5, 3) == 1 && UnreadInConversation(afterOpen, 5, 3, 1) == 0
  {
    var ms := [NewMessage(1, 5, 3, 1, "about the flat", 0), NewMessage(2, 5, 3, 2, "about the house", 1)];
    var afterOpen := MarkedRead(ms, 1, 5, 3);
    OpeningClearsConversation(ms, 1, 5, 3);
    assert afterOpen == [ms[0].(isRead := true), ms[1]];
    assert Filter(afterOpen, UnreadFromPred(5, 3)) == [ms[1]] by {
      assert afterOpen[1..] == [ms[1]];
      assert afterOpen[1..][1..] == [];
    }
  }
}
