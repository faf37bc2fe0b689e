/**
 * The `Conversation` entity: a saved chat of one browser session, with a
 * title, the messages as a JSON string, and creation and update times.
 * The title and messages setters also move the update time to the current
 * clock reading, which each of them takes as a parameter.
 */
module ConversationEntity {
  import opened Wrappers

  const NewChatTitle: string := "New Chat"

  const EmptyMessages: string := "[]"

  /** A stored conversation row, keyed by its id in the repository. */
  datatype Row = Row(id: string, sessionId: string, title: string, messagesJson: string, createdAt: int, updatedAt: int)

  class Conversation {
    /** Null until the repository assigns a generated id. */
    var id: Option<string>
    var sessionId: Option<string>
    var title: string
    var messagesJson: string
    var createdAt: int
    var updatedAt: int

    /** The no-argument constructor: two clock readings, the default title and an empty message list. */
    constructor(createdNow: int, updatedNow: int)
      ensures id == None && sessionId == None
      ensures title == NewChatTitle && messagesJson == EmptyMessages
      ensures createdAt == createdNow && updatedAt == updatedNow
    {
      id := None;
      sessionId := None;
      createdAt := createdNow;
      updatedAt := updatedNow;
      title := NewChatTitle;
      messagesJson := EmptyMessages;
    }

    /** `Conversation(sessionId)`: the defaults above, for one session. */
    constructor ForSession(sessionId: string, createdNow: int, updatedNow: int)
      ensures id == None && this.sessionId == Some(sessionId)
      ensures title == NewChatTitle && messagesJson == EmptyMessages
      ensures createdAt == createdNow && updatedAt == updatedNow
    {
      id := None;
      this.sessionId := Some(sessionId);
      createdAt := createdNow;
      updatedAt := updatedNow;
      title := NewChatTitle;
      messagesJson := EmptyMessages;
    }

    /** The entity as the repository hands it out for a stored row. */
    constructor FromRow(row: Row)
      ensures id == Some(row.id) && sessionId == Some(row.sessionId)
      ensures title == row.title && messagesJson == row.messagesJson
      ensures createdAt == row.createdAt && updatedAt == row.updatedAt
    {
      id := Some(row.id);
      sessionId := Some(row.sessionId);
      title := row.title;
      messagesJson := row.messagesJson;
      createdAt := row.createdAt;
      updatedAt := row.updatedAt;
    }

    /** The row the entity is stored as, once it has an id and a session. */
    function AsRow(): Row
      reads this
      requires id.Some? && sessionId.Some?
    {
      Row(id.value, sessionId.value, title, messagesJson, createdAt, updatedAt)
    }

    method SetId(id: string)
      modifies this
      ensures this.id == Some(id)
      ensures sessionId == old(sessionId) && title == old(title) && messagesJson == old(messagesJson)
      ensures createdAt == old(createdAt) && updatedAt == old(updatedAt)
    {
      this.id := Some(id);
    }

    method SetSessionId(sessionId: string)
      modifies this
      ensures this.sessionId == Some(sessionId)
      ensures id == old(id) && title == old(title) && messagesJson == old(messagesJson)
      ensures createdAt == old(createdAt) && updatedAt == old(updatedAt)
    {
      this.sessionId := Some(sessionId);
    }

    /** `setTitle`: the title and the update time change, nothing else. */
    method SetTitle(title: string, now: int)
      modifies this
      ensures this.title == title && updatedAt == now
      ensures id == old(id) && sessionId == old(sessionId) && messagesJson == old(messagesJson)
      ensures createdAt == old(createdAt)
    {
      this.title := title;
      updatedAt := now;
    }

    /** `setMessagesJson`: the messages and the update time change, nothing else. */
    method SetMessagesJson(messagesJson: string, now: int)
      modifies this
      ensures this.messagesJson == messagesJson && updatedAt == now
      ensures id == old(id) && sessionId == old(sessionId) && title == old(title)
      ensures createdAt == old(createdAt)
    {
      this.messagesJson := messagesJson;
      updatedAt := now;
    }

    /** `setCreatedAt`: the only way the creation time changes. */
    method SetCreatedAt(createdAt: int)
      modifies this
      ensures this.createdAt == createdAt
      ensures id == old(id) && sessionId == old(sessionId) && title == old(title)
      ensures messagesJson == old(messagesJson) && updatedAt == old(updatedAt)
    {
      this.createdAt := createdAt;
    }

    method SetUpdatedAt(updatedAt: int)
      modifies this
      ensures this.updatedAt == updatedAt
      ensures id == old(id) && sessionId == old(sessionId) && title == old(title)
      ensures messagesJson == old(messagesJson) && createdAt == old(createdAt)
    {
      this.updatedAt := updatedAt;
    }
  }
}
