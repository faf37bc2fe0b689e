/**
 * The browser's conversation list (`useConversations`): two state cells, the
 * list of conversations and the active id, replaced through updaters. The
 * list is never empty: it starts with the stored list or one fresh chat, and
 * a delete that would empty it puts a fresh chat in its place.
 *
 * Fresh ids (`Date.now` and `Math.random`) and creation times are
 * parameters; what local storage held at start-up is a parameter too.
 */
module ConversationsHook {
  import opened Wrappers
  import opened Strings
  import opened Conversations
  import opened ConversationEntity

  /** One message of a chat, as the page keeps it. */
  datatype ChatMessage = ChatMessage(role: string, content: string)

  /** One conversation of the list. */
  datatype Entry = Entry(id: string, title: string, messages: seq<ChatMessage>, createdAt: int)

  /** What local storage held, when it held anything that parsed. */
  datatype StoredState = StoredState(conversations: seq<Entry>, activeId: Option<string>)

  /** A fresh conversation: "New Chat", no messages. */
  function Fresh(id: string, now: int): Entry {
    Entry(id, NewChatTitle, [], now)
  }

  // ---------------------------------------------------------------------------
  // Titles
  // ---------------------------------------------------------------------------

  /** `messages.find(m => m.role === 'user')`. */
  function FirstUser(messages: seq<ChatMessage>): Option<ChatMessage>
    decreases |messages|
  {
    if messages == [] then None
    else if messages[0].role == "user" then Some(messages[0])
    else FirstUser(messages[1..])
  }

  /** `getConversationTitle`. */
  function ConversationTitle(messages: seq<ChatMessage>): string {
    if |messages| == 0 then NewChatTitle
    else match FirstUser(messages)
      case None => NewChatTitle
      case Some(first) =>
        var title := first.content[..Min(40, |first.content|)];
        if |title| < |first.content| then title + "..." else title
  }

  /** No message before `i` has the role "user". */
  predicate NoUserBefore(messages: seq<ChatMessage>, i: nat) {
    i <= |messages| && forall j :: 0 <= j < i ==> messages[j].role != "user"
  }

  /**
   * The title is "New Chat" when no message has the role "user" (an empty
   * list included); otherwise it is the first user message's content cut to
   * 40 characters, with "..." only when something was cut.
   */
  lemma {:induction false} ConversationTitleSpec(messages: seq<ChatMessage>, i: nat)
    requires NoUserBefore(messages, i)
    ensures i == |messages| ==> ConversationTitle(messages) == NewChatTitle
    ensures i < |messages| && messages[i].role == "user" ==> ConversationTitle(messages) == Truncate(messages[i].content)
  {
    FirstUserSpec(messages, i);
  }

  lemma {:induction false} FirstUserSpec(messages: seq<ChatMessage>, i: nat)
    requires NoUserBefore(messages, i)
    ensures i == |messages| ==> FirstUser(messages).None?
    ensures i < |messages| && messages[i].role == "user" ==> FirstUser(messages) == Some(messages[i])
    decreases i
  {
    if i > 0 {
      FirstUserSpec(messages[1..], i - 1);
    }
  }

  /** The page's messages as the server reads them back from the saved JSON. */
  function AsJson(messages: seq<ChatMessage>): seq<JsonMessage> {
    seq(|messages|, i requires 0 <= i < |messages| => JsonMessage(Some(messages[i].role), Some(messages[i].content)))
  }

  /**
   * The page and the server title a chat alike: where the page finds a user
   * message the server's generated title is the page's title, and where the
   * page says "New Chat" for want of one the server generates none.
   */
  lemma {:induction false} PageTitleMatchesServerTitle(messages: seq<ChatMessage>, i: nat)
    requires NoUserBefore(messages, i)
    ensures i == |messages| ==> TitleFrom(AsJson(messages)) == NoTitle
    ensures i < |messages| && messages[i].role == "user" ==>
      TitleFrom(AsJson(messages)) == NewTitle(ConversationTitle(messages))
  {
    ConversationTitleSpec(messages, i);
    Conversations.TitleFromSpec(AsJson(messages), i);
  }

  // ---------------------------------------------------------------------------
  // List updates on values
  // ---------------------------------------------------------------------------

  /** The first conversation whose id is the given one. */
  function FindById(cs: seq<Entry>, id: Option<string>): Option<Entry>
    decreases |cs|
  {
    if cs == [] then None
    else if Some(cs[0].id) == id then Some(cs[0])
    else FindById(cs[1..], id)
  }

  /** `i` is the first conversation with the id. */
  predicate FirstWithId(cs: seq<Entry>, id: Option<string>, i: nat) {
    i < |cs| && Some(cs[i].id) == id && forall j :: 0 <= j < i ==> Some(cs[j].id) != id
  }

  /** The lookup finds the first conversation with the id, and nothing exactly when none has it. */
  lemma {:induction false} FindByIdSpec(cs: seq<Entry>, id: Option<string>, i: nat)
    ensures FirstWithId(cs, id, i) ==> FindById(cs, id) == Some(cs[i])
    ensures FindById(cs, id).None? <==> forall j :: 0 <= j < |cs| ==> Some(cs[j].id) != id
    decreases |cs|
  {
    if cs != [] && Some(cs[0].id) != id {
      if i > 0 {
        FindByIdSpec(cs[1..], id, i - 1);
        assert FirstWithId(cs, id, i) ==> FirstWithId(cs[1..], id, i - 1);
      } else {
        FindByIdSpec(cs[1..], id, 0);
      }
      assert forall j :: 1 <= j < |cs| ==> cs[j] == cs[1..][j - 1];
    }
  }

  /** `prev.filter(c => c.id !== id)`. */
  function Without(cs: seq<Entry>, id: string): (r: seq<Entry>)
    ensures |r| <= |cs|
    decreases |cs|
  {
    if cs == [] then []
    else if cs[0].id != id then [cs[0]] + Without(cs[1..], id)
    else Without(cs[1..], id)
  }

  /** The filter keeps every conversation without the id as often as it occurred. */
  lemma {:induction false} WithoutCounts(cs: seq<Entry>, id: string)
    ensures forall c: Entry :: c.id != id ==> multiset(Without(cs, id))[c] == multiset(cs)[c]
    decreases |cs|
  {
    if cs != [] {
      WithoutCounts(cs[1..], id);
      assert cs == [cs[0]] + cs[1..];
    }
  }

  /** The filter leaves no conversation with the id. */
  lemma {:induction false} WithoutDrops(cs: seq<Entry>, id: string)
    ensures forall c :: c in Without(cs, id) ==> c.id != id
    decreases |cs|
  {
    if cs != [] {
      WithoutDrops(cs[1..], id);
    }
  }

  /** A list without the id passes the filter as it is. */
  lemma {:induction false} WithoutKeepsClean(cs: seq<Entry>, id: string)
    requires forall j :: 0 <= j < |cs| ==> cs[j].id != id
    ensures Without(cs, id) == cs
    decreases |cs|
  {
    if cs != [] {
      WithoutKeepsClean(cs[1..], id);
    }
  }

  /** What remains is exactly the conversations without the id. */
  lemma WithoutMembers(cs: seq<Entry>, id: string)
    ensures forall c: Entry :: c in Without(cs, id) <==> c in cs && c.id != id
  {
    WithoutCounts(cs, id);
    WithoutDrops(cs, id);
    forall c: Entry | c in cs && c.id != id
      ensures c in Without(cs, id)
    {
      assert multiset(cs)[c] > 0;
    }
  }

  /** Filtering twice by the same id is filtering once. */
  lemma WithoutIdempotent(cs: seq<Entry>, id: string)
    ensures Without(Without(cs, id), id) == Without(cs, id)
  {
    WithoutDrops(cs, id);
    WithoutKeepsClean(Without(cs, id), id);
  }

  /** The list after the first updater of `deleteConversation`. */
  function AfterDelete(cs: seq<Entry>, id: string, freshId: string, now: int): (r: seq<Entry>)
    ensures |r| > 0
    ensures |Without(cs, id)| > 0 ==> r == Without(cs, id)
    ensures |Without(cs, id)| == 0 ==> r == [Fresh(freshId, now)]
  {
    var filtered := Without(cs, id);
    if |filtered| == 0 then [Fresh(freshId, now)] else filtered
  }

  /** One conversation under `updateMessages`: the active one gets the messages and their title. */
  function WithMessagesIfActive(c: Entry, activeId: Option<string>, messages: seq<ChatMessage>): Entry {
    if Some(c.id) == activeId then c.(messages := messages, title := ConversationTitle(messages)) else c
  }

  /** `prev.map(...)` of `updateMessages`. */
  function WithMessages(cs: seq<Entry>, activeId: Option<string>, messages: seq<ChatMessage>): seq<Entry> {
    seq(|cs|, i requires 0 <= i < |cs| => WithMessagesIfActive(cs[i], activeId, messages))
  }

  /**
   * `updateMessages` leaves the order, ids and creation times alone, gives
   * every conversation with the active id the messages and their title, and
   * leaves every other conversation identical.
   */
  lemma UpdateTouchesOnlyActive(cs: seq<Entry>, activeId: Option<string>, messages: seq<ChatMessage>)
    ensures var r := WithMessages(cs, activeId, messages);
      |r| == |cs|
      && (forall i :: 0 <= i < |cs| ==> r[i].id == cs[i].id && r[i].createdAt == cs[i].createdAt)
      && (forall i :: 0 <= i < |cs| && Some(cs[i].id) == activeId ==>
            r[i].messages == messages && r[i].title == ConversationTitle(messages))
      && (forall i :: 0 <= i < |cs| && Some(cs[i].id) != activeId ==> r[i] == cs[i])
  {
  }

  /** `clearCurrentChat` leaves the active conversation empty and titled "New Chat", the rest as it was. */
  lemma ClearEmptiesActive(cs: seq<Entry>, activeId: Option<string>)
    ensures var r := WithMessages(cs, activeId, []);
      |r| == |cs|
      && (forall i :: 0 <= i < |cs| && Some(cs[i].id) == activeId ==> r[i].messages == [] && r[i].title == NewChatTitle)
      && (forall i :: 0 <= i < |cs| && Some(cs[i].id) != activeId ==> r[i] == cs[i])
  {
  }

  // ---------------------------------------------------------------------------
  // Initial state
  // ---------------------------------------------------------------------------

  /** The first state cell's initializer: the stored list when it has entries, else one fresh chat. */
  function InitialList(stored: Option<StoredState>, freshId: string, now: int): seq<Entry> {
    if stored.Some? && |stored.value.conversations| > 0 then stored.value.conversations
    else [Fresh(freshId, now)]
  }

  /** A JavaScript string's truthiness. */
  predicate Truthy(s: Option<string>) {
    s.Some? && s.value != ""
  }

  /** The second initializer: the stored active id if it names a stored conversation, else the first one's id. */
  function InitialActive(stored: Option<StoredState>, list: seq<Entry>): Option<string>
    requires |list| > 0
  {
    if stored.Some? && Truthy(stored.value.activeId) && FindById(stored.value.conversations, stored.value.activeId).Some?
    then stored.value.activeId
    else Some(list[0].id)
  }

  /**
   * At start-up the list is the stored one exactly when that has entries, and
   * the active id always names a conversation of the list: the stored id
   * when it names a stored conversation, else the first conversation's.
   */
  lemma InitialStateSpec(stored: Option<StoredState>, freshId: string, now: int)
    ensures var list := InitialList(stored, freshId, now);
      |list| > 0
      && (stored.Some? && |stored.value.conversations| > 0 ==> list == stored.value.conversations)
      && (stored.None? || |stored.value.conversations| == 0 ==> list == [Fresh(freshId, now)])
      && FindById(list, InitialActive(stored, list)).Some?
  {
    var list := InitialList(stored, freshId, now);
    var active := InitialActive(stored, list);
    if stored.Some? && Truthy(stored.value.activeId) && FindById(stored.value.conversations, stored.value.activeId).Some? {
      FindByIdSpec(stored.value.conversations, stored.value.activeId, 0);
    } else {
      FindByIdSpec(list, active, 0);
      assert FirstWithId(list, active, 0);
    }
  }

  // ---------------------------------------------------------------------------
  // The hook
  // ---------------------------------------------------------------------------

  class ConversationList {
    var conversations: seq<Entry>
    var activeId: Option<string>

    /** The list is never empty. */
    predicate Valid()
      reads this
    {
      |conversations| > 0
    }

    /** The hook's first render. */
    constructor(stored: Option<StoredState>, freshId: string, now: int)
      ensures Valid()
      ensures conversations == InitialList(stored, freshId, now)
      ensures activeId == InitialActive(stored, conversations)
    {
      var list := InitialList(stored, freshId, now);
      conversations := list;
      activeId := InitialActive(stored, list);
    }

    /** `activeConversation`: the one with the active id, or else the first. */
    function ActiveConversation(): (r: Entry)
      reads this
      requires Valid()
      ensures r in conversations
      ensures r.id != conversations[0].id ==> Some(r.id) == activeId
      ensures (forall j :: 0 <= j < |conversations| ==> Some(conversations[j].id) != activeId) ==> r == conversations[0]
    {
      FindByIdSpec(conversations, activeId, 0);
      match FindById(conversations, activeId)
      case Some(c) => FindByIdIn(conversations, activeId); c
      case None => conversations[0]
    }

    /** `createConversation`: a fresh chat in front, made active; its id is returned. */
    method CreateConversation(newId: string, now: int) returns (id: string)
      modifies this
      ensures conversations == [Fresh(newId, now)] + old(conversations)
      ensures activeId == Some(newId) && id == newId
      ensures Valid()
    {
      var newConversation := Fresh(newId, now);
      conversations := [newConversation] + conversations;
      activeId := Some(newConversation.id);
      return newConversation.id;
    }

    /** `selectConversation`. */
    method SelectConversation(id: string)
      modifies this
      ensures activeId == Some(id) && conversations == old(conversations)
    {
      activeId := Some(id);
    }

    /**
     * `deleteConversation`: every conversation with the id goes, a fresh one
     * stands in for an emptied list, and when the active one went the first
     * that remains becomes active.
     */
    method DeleteConversation(id: string, freshId: string, now: int)
      modifies this
      ensures conversations == AfterDelete(old(conversations), id, freshId, now)
      ensures old(activeId) != Some(id) ==> activeId == old(activeId)
      ensures old(activeId) == Some(id) && |Without(conversations, id)| > 0 ==>
        activeId == Some(Without(conversations, id)[0].id)
      ensures old(activeId) == Some(id) && |Without(conversations, id)| == 0 ==> activeId == old(activeId)
      ensures Valid()
    {
      conversations := AfterDelete(conversations, id, freshId, now);
      if activeId == Some(id) {
        var remaining := Without(conversations, id);
        if |remaining| > 0 {
          activeId := Some(remaining[0].id);
        }
      }
    }

    /** `updateMessages`. */
    method UpdateMessages(messages: seq<ChatMessage>)
      modifies this
      ensures conversations == WithMessages(old(conversations), activeId, messages)
      ensures activeId == old(activeId)
      ensures old(Valid()) ==> Valid()
    {
      conversations := WithMessages(conversations, activeId, messages);
    }

    /** `clearCurrentChat`. */
    method ClearCurrentChat()
      modifies this
      ensures conversations == WithMessages(old(conversations), activeId, [])
      ensures activeId == old(activeId)
      ensures old(Valid()) ==> Valid()
    {
      UpdateMessages([]);
    }
  }

  lemma {:induction false} FindByIdIn(cs: seq<Entry>, id: Option<string>)
    ensures FindById(cs, id).Some? ==> FindById(cs, id).value in cs && Some(FindById(cs, id).value.id) == id
    decreases |cs|
  {
    if cs != [] && Some(cs[0].id) != id {
      FindByIdIn(cs[1..], id);
    }
  }

  /**
   * The second updater of `deleteConversation` filters a list the first one
   * has already filtered, so (unless the fresh stand-in happens to get the
   * deleted id) deleting the active conversation makes the first
   * conversation of the new list active.
   */
  lemma DeleteActiveMovesToFirst(cs: seq<Entry>, id: string, freshId: string, now: int)
    requires freshId != id
    ensures var after := AfterDelete(cs, id, freshId, now);
      Without(after, id) == after && after[0].id != id
  {
    var after := AfterDelete(cs, id, freshId, now);
    if |Without(cs, id)| == 0 {
      WithoutKeepsClean(after, id);
    } else {
      WithoutIdempotent(cs, id);
      WithoutDrops(cs, id);
      assert after[0] in Without(cs, id);
    }
  }
}
