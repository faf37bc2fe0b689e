/**
 * ConversationService: the saved chats of browser sessions. A session is
 * named by the "chat_session" cookie, created on first contact; every
 * lookup is scoped to the (conversation id, session id) pair; an update
 * replaces the title and the messages it is given and, while the title is
 * still "New Chat", titles the chat after its first user message.
 *
 * The repository is the map of stored rows by id; the JSON reader is a
 * function from the messages string to the array's elements (None: the
 * string does not parse); UUIDs and clock readings are parameters.
 */
module Conversations {
  import opened Wrappers
  import opened Strings
  import opened ConversationEntity

  // ---------------------------------------------------------------------------
  // Session cookie
  // ---------------------------------------------------------------------------

  const SessionCookieName: string := "chat_session"

  /** One year, in seconds. */
  const SessionCookieMaxAge: int := 60 * 60 * 24 * 365

  /** A servlet cookie: name and value, and the attributes the service sets on a new one. */
  datatype Cookie = Cookie(name: string, value: string, path: Option<string>, maxAge: int, httpOnly: bool)

  /** The response, as far as the service touches it: the cookies added to it. */
  class HttpResponse {
    var cookies: seq<Cookie>

    constructor()
      ensures cookies == []
    {
      cookies := [];
    }

    method AddCookie(c: Cookie)
      modifies this
      ensures cookies == old(cookies) + [c]
    {
      cookies := cookies + [c];
    }
  }

  /** The value of the first cookie named "chat_session", if any. */
  function SessionFrom(cookies: seq<Cookie>): Option<string>
    decreases |cookies|
  {
    if cookies == [] then None
    else if cookies[0].name == SessionCookieName then Some(cookies[0].value)
    else SessionFrom(cookies[1..])
  }

  /** `i` is the first cookie named "chat_session". */
  predicate FirstSessionAt(cookies: seq<Cookie>, i: nat) {
    i < |cookies| && cookies[i].name == SessionCookieName
    && forall j :: 0 <= j < i ==> cookies[j].name != SessionCookieName
  }

  /** The session found is the first cookie with the name; none is found exactly when no cookie has it. */
  lemma {:induction false} SessionFromSpec(cookies: seq<Cookie>, i: nat)
    ensures FirstSessionAt(cookies, i) ==> SessionFrom(cookies) == Some(cookies[i].value)
    ensures SessionFrom(cookies).None? <==> forall j :: 0 <= j < |cookies| ==> cookies[j].name != SessionCookieName
    decreases |cookies|
  {
    if cookies != [] {
      if cookies[0].name != SessionCookieName {
        if i > 0 {
          SessionFromSpec(cookies[1..], i - 1);
          assert FirstSessionAt(cookies, i) ==> FirstSessionAt(cookies[1..], i - 1);
        } else {
          SessionFromSpec(cookies[1..], 0);
        }
        assert forall j :: 1 <= j < |cookies| ==> cookies[j] == cookies[1..][j - 1];
      }
    }
  }

  /** The cookie `getOrCreateSessionId` adds for a new session. */
  function NewSessionCookie(sessionId: string): Cookie {
    Cookie(SessionCookieName, sessionId, Some("/"), SessionCookieMaxAge, true)
  }

  /**
   * `getOrCreateSessionId`: the first "chat_session" cookie's value, the
   * response untouched; or, without one (or without cookies at all), the
   * fresh id, with exactly one cookie carrying it added to the response.
   */
  method GetOrCreateSessionId(requestCookies: Option<seq<Cookie>>, response: HttpResponse, freshId: string)
    returns (sessionId: string)
    modifies response
    ensures SessionFrom(requestCookies.GetOr([])).Some? ==>
      sessionId == SessionFrom(requestCookies.GetOr([])).value && response.cookies == old(response.cookies)
    ensures SessionFrom(requestCookies.GetOr([])).None? ==>
      sessionId == freshId && response.cookies == old(response.cookies) + [NewSessionCookie(freshId)]
  {
    if requestCookies.Some? {
      var cookies := requestCookies.value;
      var i := 0;
      while i < |cookies|
        invariant 0 <= i <= |cookies|
        invariant SessionFrom(cookies) == SessionFrom(cookies[i..])
      {
        if SessionCookieName == cookies[i].name {
          return cookies[i].value;
        }
        assert cookies[i..][1..] == cookies[i + 1..];
        i := i + 1;
      }
    }
    sessionId := freshId;
    var cookie := Cookie(SessionCookieName, sessionId, None, 0, false);
    cookie := cookie.(path := Some("/"));
    cookie := cookie.(maxAge := SessionCookieMaxAge);
    cookie := cookie.(httpOnly := true);
    response.AddCookie(cookie);
  }

  // ---------------------------------------------------------------------------
  // Title from the messages
  // ---------------------------------------------------------------------------

  /**
   * An element of the messages array: the text of its "role" and "content"
   * fields (None: the field is missing, and asking for its text throws).
   */
  datatype JsonMessage = JsonMessage(role: Option<string>, content: Option<string>)

  /** What title generation gives: no title, a title, or an exception other than a parse error. */
  datatype TitleOutcome = NoTitle | NewTitle(title: string) | TitleThrows

  /** A title cut to 40 characters, marked with "..." when cut. */
  function Truncate(content: string): (r: string)
    ensures |content| <= 40 ==> r == content
    ensures |content| > 40 ==> |r| == 43 && r[..40] == content[..40] && r[40..] == "..."
  {
    if |content| > 40 then content[..40] + "..." else content
  }

  /** The for loop of `generateTitleFromMessages` over the elements of the array. */
  function TitleFrom(messages: seq<JsonMessage>): TitleOutcome
    decreases |messages|
  {
    if messages == [] then NoTitle
    else if messages[0].role.None? then TitleThrows
    else if messages[0].role.value == "user" then
      (if messages[0].content.None? then TitleThrows else NewTitle(Truncate(messages[0].content.value)))
    else TitleFrom(messages[1..])
  }

  /** `generateTitleFromMessages`: a string that does not parse gives no title. */
  function GenerateTitle(messagesJson: string, parse: string -> Option<seq<JsonMessage>>): TitleOutcome {
    match parse(messagesJson)
    case None => NoTitle
    case Some(messages) => TitleFrom(messages)
  }

  /** The elements before `i` all have a role, and none is exactly "user". */
  predicate NoUserBefore(messages: seq<JsonMessage>, i: nat) {
    i <= |messages| && forall j :: 0 <= j < i ==> messages[j].role.Some? && messages[j].role.value != "user"
  }

  /**
   * The title comes from the first element whose role is exactly "user"
   * (case matters); with no such element there is no title; an element
   * without a role before it, or a first user element without content, throws.
   */
  lemma {:induction false} TitleFromSpec(messages: seq<JsonMessage>, i: nat)
    requires NoUserBefore(messages, i)
    ensures i == |messages| ==> TitleFrom(messages) == NoTitle
    ensures i < |messages| && messages[i].role.None? ==> TitleFrom(messages) == TitleThrows
    ensures i < |messages| && messages[i].role == Some("user") ==>
      TitleFrom(messages) == (if messages[i].content.None? then TitleThrows else NewTitle(Truncate(messages[i].content.value)))
    decreases i
  {
    if i > 0 {
      TitleFromSpec(messages[1..], i - 1);
    }
  }

  /** `generateTitleFromMessages`, as its loop runs. */
  method GenerateTitleFromMessages(messagesJson: string, parse: string -> Option<seq<JsonMessage>>)
    returns (r: TitleOutcome)
    ensures r == GenerateTitle(messagesJson, parse)
  {
    var parsed := parse(messagesJson);
    if parsed.None? {
      return NoTitle;
    }
    var messages := parsed.value;
    var i := 0;
    while i < |messages|
      invariant 0 <= i <= |messages|
      invariant TitleFrom(messages) == TitleFrom(messages[i..])
    {
      var message := messages[i];
      if message.role.None? {
        return TitleThrows;
      }
      if "user" == message.role.value {
        if message.content.None? {
          return TitleThrows;
        }
        var content := message.content.value;
        if |content| > 40 {
          return NewTitle(content[..40] + "...");
        }
        return NewTitle(content);
      }
      assert messages[i..][1..] == messages[i + 1..];
      i := i + 1;
    }
    return NoTitle;
  }

  // ---------------------------------------------------------------------------
  // Updates on values
  // ---------------------------------------------------------------------------

  /**
   * The row after `updateConversation`'s setters, with `clock(k)` the k-th
   * reading of the call; None when title generation throws, which rolls the
   * transaction back.
   */
  function UpdatedRow(c: Row, title: Option<string>, messagesJson: Option<string>,
    parse: string -> Option<seq<JsonMessage>>, clock: nat -> int): Option<Row>
  {
    var c1 := if title.Some? then c.(title := title.value, updatedAt := clock(0)) else c;
    var readings := if title.Some? then 1 else 0;
    if messagesJson.None? then Some(c1)
    else
      var c2 := c1.(messagesJson := messagesJson.value, updatedAt := clock(readings));
      if c2.title != NewChatTitle then Some(c2)
      else match GenerateTitle(messagesJson.value, parse)
        case NoTitle => Some(c2)
        case NewTitle(t) => Some(c2.(title := t, updatedAt := clock(readings + 1)))
        case TitleThrows => None
  }

  /**
   * What an update does to the row: id, session and creation time stay; a
   * given title replaces the title; given messages replace the messages;
   * the auto-title is applied only when the title after that is exactly
   * "New Chat" and generation gives one; the update throws only then, when
   * generation throws; with neither title nor messages nothing changes.
   */
  lemma UpdatedRowSpec(c: Row, title: Option<string>, messagesJson: Option<string>,
    parse: string -> Option<seq<JsonMessage>>, clock: nat -> int)
    ensures var r := UpdatedRow(c, title, messagesJson, parse, clock);
      var t1 := title.GetOr(c.title);
      var gen := if messagesJson.Some? then GenerateTitle(messagesJson.value, parse) else NoTitle;
      (r.Some? ==> r.value.id == c.id && r.value.sessionId == c.sessionId && r.value.createdAt == c.createdAt)
      && (r.None? <==> messagesJson.Some? && t1 == NewChatTitle && gen.TitleThrows?)
      && (r.Some? ==> r.value.messagesJson == messagesJson.GetOr(c.messagesJson))
      && (r.Some? ==> r.value.title == if messagesJson.Some? && t1 == NewChatTitle && gen.NewTitle? then gen.title else t1)
      && (title.None? && messagesJson.None? ==> r == Some(c))
  {
  }

  /** The outcome of `updateConversation`: not found (null), the saved row, or an exception. */
  datatype UpdateOutcome = NotFound | Updated(row: Row) | UpdateThrew

  /** `findByIdAndSessionId`: the row with that id, provided it belongs to that session. */
  function Find(rows: map<string, Row>, sessionId: string, conversationId: string): (r: Option<Row>)
    ensures r.Some? <==> conversationId in rows && rows[conversationId].sessionId == sessionId
    ensures r.Some? ==> r.value == rows[conversationId]
  {
    if conversationId in rows && rows[conversationId].sessionId == sessionId then Some(rows[conversationId]) else None
  }

  /** The repository and the outcome after `updateConversation`. */
  function Update(rows: map<string, Row>, sessionId: string, conversationId: string, title: Option<string>,
    messagesJson: Option<string>, parse: string -> Option<seq<JsonMessage>>, clock: nat -> int)
    : (map<string, Row>, UpdateOutcome)
  {
    match Find(rows, sessionId, conversationId)
    case None => (rows, NotFound)
    case Some(c) =>
      match UpdatedRow(c, title, messagesJson, parse, clock)
      case None => (rows, UpdateThrew)
      case Some(r) => (rows[conversationId := r], Updated(r))
  }

  /** An update touches only the conversation it names, and only within its session. */
  lemma UpdateIsScoped(rows: map<string, Row>, sessionId: string, conversationId: string, title: Option<string>,
    messagesJson: Option<string>, parse: string -> Option<seq<JsonMessage>>, clock: nat -> int)
    ensures var (after, outcome) := Update(rows, sessionId, conversationId, title, messagesJson, parse, clock);
      after.Keys == rows.Keys
      && (forall k :: k in rows && k != conversationId ==> after[k] == rows[k])
      && (Find(rows, sessionId, conversationId).None? ==> outcome == NotFound && after == rows)
      && (outcome.Updated? ==> Find(after, sessionId, conversationId) == Some(outcome.row))
  {
  }

  /** The repository and the result after `deleteConversation`. */
  function Delete(rows: map<string, Row>, sessionId: string, conversationId: string): (map<string, Row>, bool) {
    if Find(rows, sessionId, conversationId).Some? then (rows - {conversationId}, true) else (rows, false)
  }

  /** A delete removes exactly the named conversation of the session, or nothing and reports false. */
  lemma DeleteSpec(rows: map<string, Row>, sessionId: string, conversationId: string)
    ensures var (after, deleted) := Delete(rows, sessionId, conversationId);
      (deleted <==> conversationId in rows && rows[conversationId].sessionId == sessionId)
      && (!deleted ==> after == rows)
      && (deleted ==> after.Keys == rows.Keys - {conversationId})
      && (forall k :: k in rows && k != conversationId ==> k in after && after[k] == rows[k])
  {
  }

  // ---------------------------------------------------------------------------
  // The service
  // ---------------------------------------------------------------------------

  class ConversationService {
    /** The conversation repository: the stored rows by id. */
    var rows: map<string, Row>

    constructor(rows: map<string, Row>)
      ensures this.rows == rows
    {
      this.rows := rows;
    }

    /** `getConversation`. */
    method GetConversation(sessionId: string, conversationId: string) returns (r: Option<Row>)
      ensures r == Find(rows, sessionId, conversationId)
    {
      if conversationId in rows && rows[conversationId].sessionId == sessionId {
        return Some(rows[conversationId]);
      }
      return None;
    }

    /** `createConversation`: a fresh "New Chat" with no messages, saved under the generated id. */
    method CreateConversation(sessionId: string, newId: string, createdNow: int, updatedNow: int) returns (r: Row)
      modifies this
      ensures r == Row(newId, sessionId, NewChatTitle, EmptyMessages, createdNow, updatedNow)
      ensures rows == old(rows)[newId := r]
    {
      var conversation := new Conversation.ForSession(sessionId, createdNow, updatedNow);
      conversation.SetId(newId);
      r := conversation.AsRow();
      rows := rows[newId := r];
    }

    /** `updateConversation`. */
    method UpdateConversation(sessionId: string, conversationId: string, title: Option<string>,
      messagesJson: Option<string>, parse: string -> Option<seq<JsonMessage>>, clock: nat -> int)
      returns (outcome: UpdateOutcome)
      modifies this
      ensures (rows, outcome) == Update(old(rows), sessionId, conversationId, title, messagesJson, parse, clock)
    {
      var found := Find(rows, sessionId, conversationId);
      if found.None? {
        return NotFound;
      }
      var conversation := new Conversation.FromRow(found.value);
      var readings: nat := 0;
      if title.Some? {
        conversation.SetTitle(title.value, clock(readings));
        readings := readings + 1;
      }
      if messagesJson.Some? {
        conversation.SetMessagesJson(messagesJson.value, clock(readings));
        readings := readings + 1;
        if NewChatTitle == conversation.title {
          var autoTitle := GenerateTitleFromMessages(messagesJson.value, parse);
          if autoTitle.TitleThrows? {
            return UpdateThrew;
          }
          if autoTitle.NewTitle? {
            conversation.SetTitle(autoTitle.title, clock(readings));
          }
        }
      }
      var saved := conversation.AsRow();
      rows := rows[conversationId := saved];
      return Updated(saved);
    }

    /** `deleteConversation`. */
    method DeleteConversation(sessionId: string, conversationId: string) returns (deleted: bool)
      modifies this
      ensures (rows, deleted) == Delete(old(rows), sessionId, conversationId)
    {
      var conversation := Find(rows, sessionId, conversationId);
      if conversation.None? {
        return false;
      }
      rows := rows - {conversationId};
      return true;
    }
  }
}
