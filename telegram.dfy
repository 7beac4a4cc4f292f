/** The Telegram adapter's decisions: how an inbound group message becomes a
    stored message, whether the character answers it, where a reply is sent,
    when a periodic post is due, and the two bounded retry loops around
    polling. The platform calls and the generators are parameters. */
module Telegram {
  import opened Wrappers
  import opened Text
  import opened Records
  import opened Config
  import opened Store
  import Memory
  import Character

  const Platform: string := "telegram"
  const NoUsername: string := "<no_username>"

  // ------------------------------------------------------------ messages

  datatype TgUser = TgUser(id: int, username: Option<string>)
  /** The message an inbound message replies to. */
  datatype TgReplied = TgReplied(messageId: int, fromUser: Option<TgUser>)
  /** An inbound message; `text` is absent for a photo or a sticker, and
      `fromUser` for a message sent on behalf of a channel. */
  datatype TgMessage = TgMessage(messageId: int, chatId: int, text: Option<string>, fromUser: Option<TgUser>,
                                 replyTo: Option<TgReplied>)

  /** The author a user is stored as: the username, or the numeric id when
      the user has none. */
  function AuthorOf(u: TgUser): (a: string)
    ensures a != []
    ensures Truthy(u.username) ==> a == u.username.value
    ensures !Truthy(u.username) ==> ParseInt(a) == Some(u.id)
  {
    if Truthy(u.username) then u.username.value
    else ParseIntOfDecimal(u.id); IntToDecimal(u.id)
  }

  /** The generated-message form of an inbound message. Reading the sender
      of a message without one raises; a message without text fails the
      schema's required content. */
  function ToSiaMessage(m: TgMessage): (r: Result<GeneratedMessage>)
    ensures m.fromUser.None? ==> r == Err(AttributeError)
    ensures m.fromUser.Some? && m.text.None? ==> r == Err(ValidationError)
    ensures r.Ok? <==> m.fromUser.Some? && m.text.Some?
    ensures r.Ok? ==> r.value.conversationId.Some? && ParseInt(r.value.conversationId.value) == Some(m.chatId)
    ensures r.Ok? ==> r.value.platform == Platform && r.value.content == m.text.value &&
                      r.value.author == AuthorOf(m.fromUser.value)
    ensures r.Ok? ==> (r.value.responseTo.Some? <==> m.replyTo.Some?)
    ensures r.Ok? && m.replyTo.Some? ==> ParseInt(r.value.responseTo.value) == Some(m.replyTo.value.messageId)
    ensures r.Ok? ==> r.value.flagged == Some(false) && r.value.metadata.None? && r.value.character.None?
  {
    if m.fromUser.None? then Err(AttributeError)
    else if m.text.None? then Err(ValidationError)
    else
      ParseIntOfDecimal(m.chatId);
      var responseTo := if m.replyTo.Some? then Some(IntToDecimal(m.replyTo.value.messageId)) else None;
      assert m.replyTo.Some? ==> ParseInt(responseTo.value) == Some(m.replyTo.value.messageId) by {
        if m.replyTo.Some? { ParseIntOfDecimal(m.replyTo.value.messageId); }
      }
      Ok(GeneratedMessage(Some(IntToDecimal(m.chatId)), m.text.value, Platform, AuthorOf(m.fromUser.value),
                          None, responseTo, Some(false), None))
  }

  /** The id a message is stored under: the chat, a dash, the message. */
  function StoreKey(chat: string, id: string): string {
    chat + "-" + id
  }

  function InboundKey(m: TgMessage): string {
    StoreKey(IntToDecimal(m.chatId), IntToDecimal(m.messageId))
  }

  /** The message id is recovered from the end of the stored key, whatever
      the sign of the chat id. */
  lemma InboundKeyRoundTrip(m: TgMessage)
    requires m.messageId >= 0
    ensures ParseInt(LastSegment(InboundKey(m), '-')) == Some(m.messageId)
  {
    DecimalHasNo(m.messageId, '-');
    assert InboundKey(m) == IntToDecimal(m.chatId) + ['-'] + IntToDecimal(m.messageId);
    LastSegmentAfter(IntToDecimal(m.chatId), '-', IntToDecimal(m.messageId));
    ParseIntOfDecimal(m.messageId);
  }

  /** Distinct messages are stored under distinct keys. */
  lemma InboundKeyInjective(m1: TgMessage, m2: TgMessage)
    requires m1.messageId >= 0 && m2.messageId >= 0
    requires InboundKey(m1) == InboundKey(m2)
    ensures m1.chatId == m2.chatId && m1.messageId == m2.messageId
  {
    InboundKeyRoundTrip(m1);
    InboundKeyRoundTrip(m2);
    var k := InboundKey(m1);
    var tail := IntToDecimal(m1.messageId);
    assert IntToDecimal(m1.messageId) == IntToDecimal(m2.messageId);
    assert k[..|k| - |tail| - 1] == IntToDecimal(m1.chatId);
    assert InboundKey(m2)[..|k| - |tail| - 1] == IntToDecimal(m2.chatId);
    DecimalInjective(m1.chatId, m2.chatId);
  }

  // ----------------------------------------------------------- publishing

  datatype Payload = TextMessage(content: string) | Photos(files: seq<string>)
  /** One call to the platform's send operation. */
  datatype Outgoing = Outgoing(chat: int, payload: Payload, replyTo: Option<int>)
  /** The platform's send operation: the id of the (first) sent message, or
      None when the call raises. */
  type Sender = Outgoing -> Option<int>

  /** `int(in_reply_to.split("-")[-1])` when a reply target is given. */
  function ReplyTarget(inReplyTo: Option<string>): (r: Result<Option<int>>)
    ensures !Truthy(inReplyTo) ==> r == Ok(None)
    ensures r.Err? ==> r.error == ValueError
    ensures r.Ok? && r.value.Some? ==> Truthy(inReplyTo)
  {
    if !Truthy(inReplyTo) then Ok(None)
    else
      var n := ParseInt(LastSegment(inReplyTo.value, '-'));
      if n.None? then Err(ValueError) else Ok(Some(n.value))
  }

  /** A stored key or a bare message id both target that message. */
  lemma ReplyTargetOfKey(chat: string, id: int)
    requires id >= 0
    ensures ReplyTarget(Some(IntToDecimal(id))) == Ok(Some(id))
    ensures ReplyTarget(Some(StoreKey(chat, IntToDecimal(id)))) == Ok(Some(id))
  {
    DecimalHasNo(id, '-');
    ParseIntOfDecimal(id);
    LastSegmentWhole(IntToDecimal(id), '-');
    assert StoreKey(chat, IntToDecimal(id)) == chat + ['-'] + IntToDecimal(id);
    LastSegmentAfter(chat, '-', IntToDecimal(id));
  }

  /** Sends a message, or the photos when there are any, to the chat the
      message's conversation id names. Every failure on the way, from a
      missing message to an id that is not a number, yields None. */
  function Publish(message: Option<GeneratedMessage>, media: Option<seq<string>>, inReplyTo: Option<string>,
                   send: Sender): (r: Option<string>)
    ensures r.Some? ==> message.Some? && message.value.conversationId.Some?
    ensures r.Some? ==> ParseInt(message.value.conversationId.value).Some? && ReplyTarget(inReplyTo).Ok?
    ensures r.Some? ==> r.value != [] && ParseInt(r.value).Some?
  {
    if message.None? || message.value.conversationId.None? then None
    else
      var chat := ParseInt(message.value.conversationId.value);
      var target := ReplyTarget(inReplyTo);
      if chat.None? || target.Err? then None
      else
        var payload := if media.Some? && media.value != [] then Photos(media.value)
                       else TextMessage(message.value.content);
        var sent := send(Outgoing(chat.value, payload, target.value));
        if sent.None? then None
        else ParseIntOfDecimal(sent.value); Some(IntToDecimal(sent.value))
  }

  /** A reply built for a stored inbound message goes back to that message's
      chat, as a reply to that message. */
  lemma PublishReplyGoesBack(m: TgMessage, response: GeneratedMessage, send: Sender)
    requires m.messageId >= 0
    requires ToSiaMessage(m).Ok? && response.conversationId == ToSiaMessage(m).value.conversationId
    ensures var out := Outgoing(m.chatId, TextMessage(response.content), Some(m.messageId));
            Publish(Some(response), None, Some(IntToDecimal(m.messageId)), send) ==
              if send(out).Some? then Some(IntToDecimal(send(out).value)) else None
  {
    ReplyTargetOfKey("", m.messageId);
  }

  // ----------------------------------------------------------- responding

  /** The same user as the one a setting names; an unset setting matches a
      user without a username. */
  predicate SameUsername(username: Option<string>, setting: Json) {
    (username.None? && setting.JNull?) || (username.Some? && setting == JStr(username.value))
  }

  /** Whether an inbound message addresses the character: it mentions
      `@username` (a placeholder when none is configured), or it replies to
      a message from the configured username. */
  function ShouldRespond(m: TgMessage, platformSettings: Json): (r: Result<bool>)
    ensures !platformSettings.JObj? ==> r == Err(AttributeError)
    ensures r.Ok? ==> m.text.Some?
  {
    var telegram := Get(platformSettings, Platform, EmptyObject);
    if telegram.Err? then Err(telegram.error)
    else
      var username := Get(telegram.value, "username", JStr(NoUsername));
      if username.Err? then Err(username.error)
      else if m.text.None? then Err(TypeError)
      else if Contains(m.text.value, "@" + JFormat(username.value)) then Ok(true)
      else if m.replyTo.None? then Ok(false)
      else if m.replyTo.value.fromUser.None? then Err(AttributeError)
      else
        var bot := Lookup(platformSettings, [Platform, "username"], JNull);
        if bot.Err? then Err(bot.error)
        else Ok(SameUsername(m.replyTo.value.fromUser.value.username, bot.value))
  }

  /** With a username configured, a message is answered exactly when it
      mentions that username or replies to that user. */
  lemma ShouldRespondConfigured(m: TgMessage, platformSettings: Json, username: string)
    requires platformSettings.JObj? && Platform in platformSettings.fields
    requires platformSettings.fields[Platform].JObj?
    requires "username" in platformSettings.fields[Platform].fields
    requires platformSettings.fields[Platform].fields["username"] == JStr(username)
    requires m.text.Some?
    requires m.replyTo.Some? ==> m.replyTo.value.fromUser.Some?
    ensures ShouldRespond(m, platformSettings) ==
              Ok(Contains(m.text.value, "@" + username) ||
                 (m.replyTo.Some? && m.replyTo.value.fromUser.value.username == Some(username)))
  {
    assert [Platform, "username"][1..] == ["username"];
  }

  /** Without a username configured, only the placeholder mention and a
      reply to a user without a username are answered. */
  lemma ShouldRespondUnconfigured(m: TgMessage, platformSettings: Json)
    requires platformSettings.JObj? && Platform !in platformSettings.fields
    requires m.text.Some?
    requires m.replyTo.Some? ==> m.replyTo.value.fromUser.Some?
    ensures ShouldRespond(m, platformSettings) ==
              Ok(Contains(m.text.value, "@" + NoUsername) ||
                 (m.replyTo.Some? && m.replyTo.value.fromUser.value.username.None?))
  {
    EmptyLookup(["username"], JNull);
  }

  /** The response generator: a reply to a stored message, or None. */
  type Responder = Message -> Option<GeneratedMessage>

  /** The database after an inbound group message: the message is stored
      under its chat key; if it addresses the character and responding is
      enabled, the generated reply is sent and stored as a "reply" under the
      chat and the returned id. Every exception is caught, keeping what was
      stored before it. */
  function HandleMessage(db: Db, m: TgMessage, platformSettings: Json, responding: Json, name: Option<string>,
                         defaultName: string, now: int, respond: Responder, send: Sender): (r: Db)
    ensures r.settings == db.settings && r.social == db.social
    ensures |db.messages| <= |r.messages| <= |db.messages| + 2 && r.messages[..|db.messages|] == db.messages
    ensures ToSiaMessage(m).Err? ==> r == db
    ensures |r.messages| == |db.messages| + 2 ==>
              r.messages[|db.messages|].id == InboundKey(m) &&
              r.messages[|db.messages| + 1].messageType == Some("reply") &&
              ShouldRespond(m, platformSettings) == Ok(true)
  {
    var mapped := ToSiaMessage(m);
    if mapped.Err? then db
    else
      var (db1, stored) := AddMessage(db, Some(InboundKey(m)), mapped.value, None, None, name, defaultName, now);
      if stored.Err? then db1
      else
        var r := AnswerStored(db1, m, stored.value, platformSettings, responding, name, defaultName, now,
                              respond, send);
        assert stored.value.id == InboundKey(m);
        assert db1.messages == db.messages || db1.messages == db.messages + [stored.value];
        assert r.messages[..|db.messages|] == r.messages[..|db1.messages|][..|db.messages|];
        assert |r.messages| == |db.messages| + 2 ==>
                 |r.messages| == |db1.messages| + 1 && db1.messages == db.messages + [stored.value] &&
                 r.messages[|db.messages|] == db1.messages[|db.messages|];
        r
  }

  /** What follows a stored group message: when it addresses the character
      and responding is enabled, the generated reply is sent and stored. */
  function AnswerStored(db: Db, m: TgMessage, stored: Message, platformSettings: Json, responding: Json,
                        name: Option<string>, defaultName: string, now: int, respond: Responder,
                        send: Sender): (r: Db)
    ensures r.settings == db.settings && r.social == db.social
    ensures |db.messages| <= |r.messages| <= |db.messages| + 1 && r.messages[..|db.messages|] == db.messages
    ensures |r.messages| > |db.messages| ==>
              var enabled := Get(responding, "enabled", JBool(true));
              ShouldRespond(m, platformSettings) == Ok(true) && enabled.Ok? && JTruthy(enabled.value) &&
              respond(stored).Some? &&
              var id := Publish(respond(stored), None, Some(IntToDecimal(m.messageId)), send);
              r.messages[|db.messages|] ==
                NewRow(Some(StoreKey(IntToDecimal(m.chatId), IdKey(id))), respond(stored).value, Some("reply"),
                       None, now)
  {
    var addressed := ShouldRespond(m, platformSettings);
    if addressed.Err? || !addressed.value then db
    else
      var enabled := Get(responding, "enabled", JBool(true));
      if enabled.Err? || !JTruthy(enabled.value) then db
      else
        var response := respond(stored);
        if response.None? then db
        else
          var id := Publish(response, None, Some(IntToDecimal(m.messageId)), send);
          var key := StoreKey(IntToDecimal(m.chatId), IdKey(id));
          AddMessage(db, Some(key), response.value, Some("reply"), None, name, defaultName, now).0
  }

  /** A mapped message whose key is free is stored under that key. */
  lemma HandleStoresInbound(db: Db, m: TgMessage, platformSettings: Json, responding: Json, name: Option<string>,
                            defaultName: string, now: int, respond: Responder, send: Sender)
    requires ToSiaMessage(m).Ok?
    requires InboundKey(m) !in db.links
    ensures InboundKey(m) in Ids(HandleMessage(db, m, platformSettings, responding, name, defaultName, now,
                                               respond, send).messages)
  {
    var (db1, stored) := AddMessage(db, Some(InboundKey(m)), ToSiaMessage(m).value, None, None, name,
                                    defaultName, now);
    var r := AnswerStored(db1, m, stored.value, platformSettings, responding, name, defaultName, now, respond,
                          send);
    assert r == HandleMessage(db, m, platformSettings, responding, name, defaultName, now, respond, send);
    assert stored.value in db1.messages;
    assert db1.messages <= r.messages;
    assert stored.value in r.messages;
  }

  /** With responding disabled, a message is only stored. */
  lemma HandleDisabledOnlyStores(db: Db, m: TgMessage, platformSettings: Json, responding: Json,
                                 name: Option<string>, defaultName: string, now: int, respond: Responder,
                                 send: Sender)
    requires ToSiaMessage(m).Ok?
    requires Get(responding, "enabled", JBool(true)) == Ok(JBool(false))
    ensures HandleMessage(db, m, platformSettings, responding, name, defaultName, now, respond, send) ==
              AddMessage(db, Some(InboundKey(m)), ToSiaMessage(m).value, None, None, name, defaultName, now).0
  {
    var (db1, stored) := AddMessage(db, Some(InboundKey(m)), ToSiaMessage(m).value, None, None, name, defaultName, now);
    if stored.Ok? {
      assert AnswerStored(db1, m, stored.value, platformSettings, responding, name, defaultName, now, respond, send)
             == db1;
    }
  }

  /** A message that does not address the character is only stored. */
  lemma HandleUnaddressedOnlyStores(db: Db, m: TgMessage, platformSettings: Json, responding: Json,
                                    name: Option<string>, defaultName: string, now: int, respond: Responder,
                                    send: Sender)
    requires ToSiaMessage(m).Ok?
    requires ShouldRespond(m, platformSettings) != Ok(true)
    ensures HandleMessage(db, m, platformSettings, responding, name, defaultName, now, respond, send) ==
              AddMessage(db, Some(InboundKey(m)), ToSiaMessage(m).value, None, None, name, defaultName, now).0
  {
  }

  // -------------------------------------------------------------- posting

  /** The posting settings read for one post. */
  datatype PostConfig = PostConfig(chat: Json, frequency: Json, author: Json)

  function PostConfigOf(platformSettings: Json): (r: Result<PostConfig>)
    ensures r.Err? ==> r.error == AttributeError
  {
    var chat := Lookup(platformSettings, [Platform, "post", "chat_id"], JStr(""));
    var frequency := Lookup(platformSettings, [Platform, "post", "frequency"], JNum(1));
    var author := Lookup(platformSettings, [Platform, "username"], JStr(""));
    if chat.Err? then Err(chat.error)
    else if frequency.Err? then Err(frequency.error)
    else if author.Err? then Err(author.error)
    else Ok(PostConfig(chat.value, frequency.value, author.value))
  }

  /** The character's earlier posts in the configured chat, newest first. */
  function PostQuery(cfg: PostConfig, name: Option<string>): (q: Query)
    ensures Descending(q) && q.isPost && q.platform == Some(Platform)
  {
    AllMessages.(platform := Some(Platform), character := name, author := FilterArg(cfg.author), isPost := true,
                 conversationId := FilterArg(cfg.chat), sortBy := Some(WenPosted), sortOrder := "desc")
  }

  /** The time the next post is due: a frequency in hours after the newest
      earlier post, or ten seconds ago when there is none. */
  function NextPostTime(latest: seq<Message>, frequency: Json, now: int): (r: Result<int>)
    ensures latest == [] ==> r == Ok(now - 10)
    ensures latest != [] ==> (r.Ok? <==> JInt(frequency).Ok?)
    ensures latest != [] && r.Ok? ==> r.value == latest[0].wenPosted + JInt(frequency).value * 3600
    ensures r.Err? ==> r.error == TypeError
  {
    if latest == [] then Ok(now - 10)
    else
      var f := JInt(frequency);
      if f.Err? then Err(f.error) else Ok(latest[0].wenPosted + f.value * 3600)
  }

  /** The post generator, given the author and the chat: a message and the
      image files, either of which may be absent. */
  type PostGenerator = (Json, Json) -> Result<(Option<GeneratedMessage>, Option<seq<string>>)>

  /** One periodic post. Nothing happens while posting is disabled or the
      next post is not yet due; otherwise the generated post is sent, and
      stored as a "post" under the chat and the returned id when sending
      returned one. An exception leaves the database as it was. */
  function PostOnce(db: Db, platformSettings: Json, name: Option<string>, defaultName: string, now: int,
                generate: PostGenerator, send: Sender): (out: (Db, Result<()>))
    ensures out.0.settings == db.settings && out.0.social == db.social
    ensures out.1.Err? ==> out.0 == db
    ensures out.0.messages == db.messages ||
            (|out.0.messages| == |db.messages| + 1 && out.0.messages[..|db.messages|] == db.messages &&
             out.0.messages[|db.messages|].messageType == Some("post"))
    ensures out.0.messages != db.messages ==>
              var cfg := PostConfigOf(platformSettings);
              cfg.Ok? && generate(cfg.value.author, cfg.value.chat).Ok? &&
              var (post, media) := generate(cfg.value.author, cfg.value.chat).value;
              var id := Publish(post, media, None, send);
              post.Some? && Truthy(id) &&
              out.0.messages[|db.messages|] ==
                NewRow(Some(StoreKey(JFormat(cfg.value.chat), id.value)), post.value, Some("post"), None, now)
  {
    var enabled := Lookup(platformSettings, [Platform, "post", "enabled"], JBool(false));
    if enabled.Err? then (db, Err(enabled.error))
    else if !JTruthy(enabled.value) then (db, Ok(()))
    else
      var cfg := PostConfigOf(platformSettings);
      if cfg.Err? then (db, Err(cfg.error))
      else
        var latest := GetMessages(db, PostQuery(cfg.value, name));
        var next := NextPostTime(latest, cfg.value.frequency, now);
        if next.Err? then (db, Err(next.error))
        else if now <= next.value then (db, Ok(()))
        else
          var generated := generate(cfg.value.author, cfg.value.chat);
          if generated.Err? then (db, Err(generated.error))
          else
            var (post, media) := generated.value;
            if post.None? && (media.None? || media.value == []) then (db, Ok(()))
            else
              var id := Publish(post, media, None, send);
              if !Truthy(id) then (db, Ok(()))
              else
                var key := StoreKey(JFormat(cfg.value.chat), id.value);
                var (db1, stored) := AddMessage(db, Some(key), post.value, Some("post"), None, name, defaultName, now);
                if stored.Err? then (db, Err(stored.error)) else (db1, Ok(()))
  }

  /** Disabled posting does nothing. */
  lemma PostDisabled(db: Db, platformSettings: Json, name: Option<string>, defaultName: string, now: int,
                     generate: PostGenerator, send: Sender)
    requires Lookup(platformSettings, [Platform, "post", "enabled"], JBool(false)).Ok?
    requires !JTruthy(Lookup(platformSettings, [Platform, "post", "enabled"], JBool(false)).value)
    ensures PostOnce(db, platformSettings, name, defaultName, now, generate, send) == (db, Ok(()))
  {
  }

  /** A post is stored only when the time is more than the frequency past
      every earlier post of the character in that chat. */
  lemma PostSpaced(db: Db, platformSettings: Json, name: Option<string>, defaultName: string, now: int,
                   generate: PostGenerator, send: Sender)
    requires PostConfigOf(platformSettings).Ok?
    requires PostOnce(db, platformSettings, name, defaultName, now, generate, send).0.messages != db.messages
    ensures var cfg := PostConfigOf(platformSettings).value;
            forall m :: m in db.messages && Matches(PostQuery(cfg, name), db.links, m) ==>
              JInt(cfg.frequency).Ok? && m.wenPosted + JInt(cfg.frequency).value * 3600 < now
  {
    var cfg := PostConfigOf(platformSettings).value;
    var q := PostQuery(cfg, name);
    var latest := GetMessages(db, q);
    PostOnceWasDue(db, platformSettings, name, defaultName, now, generate, send);
    var next := NextPostTime(latest, cfg.frequency, now);
    assert next.Ok? && now > next.value;
    assert Descending(q);
    forall m | m in db.messages && Matches(q, db.links, m)
      ensures JInt(cfg.frequency).Ok? && m.wenPosted + JInt(cfg.frequency).value * 3600 < now
    {
      assert m in latest;
      var k :| 0 <= k < |latest| && latest[k] == m;
      assert latest[0].wenPosted >= m.wenPosted;
      assert next.value == latest[0].wenPosted + JInt(cfg.frequency).value * 3600;
    }
  }

  lemma PostOnceWasDue(db: Db, platformSettings: Json, name: Option<string>, defaultName: string, now: int,
                        generate: PostGenerator, send: Sender)
    requires PostConfigOf(platformSettings).Ok?
    requires PostOnce(db, platformSettings, name, defaultName, now, generate, send).0.messages != db.messages
    ensures var cfg := PostConfigOf(platformSettings).value;
            var next := NextPostTime(GetMessages(db, PostQuery(cfg, name)), cfg.frequency, now);
            next.Ok? && now > next.value
  {
  }

  /** A first post in a chat is due at once: with a generated message that
      sends, it is stored under the chat and the sent id. */
  lemma PostFirstInChat(db: Db, platformSettings: Json, name: Option<string>, defaultName: string, now: int,
                        generate: PostGenerator, send: Sender)
    requires Lookup(platformSettings, [Platform, "post", "enabled"], JBool(false)) == Ok(JBool(true))
    requires PostConfigOf(platformSettings).Ok?
    requires GetMessages(db, PostQuery(PostConfigOf(platformSettings).value, name)) == []
    requires generate(PostConfigOf(platformSettings).value.author, PostConfigOf(platformSettings).value.chat).Ok?
    requires var (post, media) := generate(PostConfigOf(platformSettings).value.author,
                                           PostConfigOf(platformSettings).value.chat).value;
             post.Some? && Publish(post, media, None, send).Some?
    ensures var cfg := PostConfigOf(platformSettings).value;
            var (post, media) := generate(cfg.author, cfg.chat).value;
            var key := StoreKey(JFormat(cfg.chat), Publish(post, media, None, send).value);
            PostOnce(db, platformSettings, name, defaultName, now, generate, send) ==
              (var (db1, stored) := AddMessage(db, Some(key), post.value, Some("post"), None, name, defaultName, now);
               if stored.Err? then (db, Err(stored.error)) else (db1, Ok(())))
  {
  }

  // -------------------------------------------------------- retry loops

  /** The outcome of one call to the platform: it returns, it reports a
      competing poller, or it raises anything else. */
  datatype Outcome = Success | Conflict | Failure
  /** The platform calls a retry loop makes, in order. */
  datatype Action = GetUpdates | Poll | DeleteWebhook | Sleep(seconds: nat)

  function Pow2(n: nat): (r: nat)
    ensures r >= 1
  {
    if n == 0 then 1 else 2 * Pow2(n - 1)
  }

  /** The conflict handler from attempt `attempt` on: a conflict before the
      last attempt waits one second more each time, a conflict on the last
      attempt clears the webhook, anything else propagates, and running out
      of attempts raises. */
  function ConflictFrom(outcome: nat -> Outcome, retries: nat, attempt: nat): (out: (Result<()>, seq<Action>))
    decreases retries - attempt
  {
    if attempt >= retries then (Err(ConflictUnresolved), [])
    else
      match outcome(attempt)
      case Success => (Ok(()), [GetUpdates])
      case Failure => (Err(PollingError), [GetUpdates])
      case Conflict =>
        var wait := if attempt == retries - 1 then [DeleteWebhook] else [Sleep(attempt + 1)];
        var rest := ConflictFrom(outcome, retries, attempt + 1);
        (rest.0, [GetUpdates] + wait + rest.1)
  }

  /** The first `k` attempts conflict. */
  predicate ConflictsBefore(outcome: nat -> Outcome, k: nat) {
    forall a :: 0 <= a < k ==> outcome(a) == Conflict
  }

  /** The handler returns exactly when some attempt succeeds after nothing
      but conflicts, and gives up exactly when every attempt conflicts. */
  lemma {:induction false} ConflictResult(outcome: nat -> Outcome, retries: nat, attempt: nat)
    requires attempt <= retries
    ensures ConflictFrom(outcome, retries, attempt).0.Ok? <==>
              exists k :: attempt <= k < retries && outcome(k) == Success &&
                          forall a :: attempt <= a < k ==> outcome(a) == Conflict
    ensures ConflictFrom(outcome, retries, attempt).0 == Err(ConflictUnresolved) <==>
              forall a :: attempt <= a < retries ==> outcome(a) == Conflict
    decreases retries - attempt
  {
    if attempt < retries && outcome(attempt) == Conflict {
      ConflictResult(outcome, retries, attempt + 1);
      if ConflictFrom(outcome, retries, attempt).0.Ok? {
        var k :| attempt + 1 <= k < retries && outcome(k) == Success &&
                 forall a :: attempt + 1 <= a < k ==> outcome(a) == Conflict;
        assert forall a :: attempt <= a < k ==> outcome(a) == Conflict;
      }
    } else if attempt < retries {
      assert !(forall a :: attempt <= a < retries ==> outcome(a) == Conflict) by {
        if outcome(attempt) != Conflict {}
      }
      if outcome(attempt) == Failure {
        forall k | attempt <= k < retries && outcome(k) == Success
          ensures !(forall a :: attempt <= a < k ==> outcome(a) == Conflict)
        {
          assert k != attempt;
        }
      }
    }
  }

  /** With three attempts that all conflict, the handler waits one and two
      seconds, clears the webhook, and gives up. */
  lemma ConflictExhausted(outcome: nat -> Outcome)
    requires ConflictsBefore(outcome, 3)
    ensures ConflictFrom(outcome, 3, 0) ==
              (Err(ConflictUnresolved), [GetUpdates, Sleep(1), GetUpdates, Sleep(2), GetUpdates, DeleteWebhook])
  {
    assert outcome(0) == Conflict && outcome(1) == Conflict && outcome(2) == Conflict;
    assert ConflictFrom(outcome, 3, 3) == (Err(ConflictUnresolved), []);
    assert [GetUpdates] + [DeleteWebhook] + [] == [GetUpdates, DeleteWebhook];
    assert ConflictFrom(outcome, 3, 2) == (Err(ConflictUnresolved), [GetUpdates, DeleteWebhook]);
    assert [GetUpdates] + [Sleep(2)] + [GetUpdates, DeleteWebhook] ==
             [GetUpdates, Sleep(2), GetUpdates, DeleteWebhook];
    assert ConflictFrom(outcome, 3, 1) ==
             (Err(ConflictUnresolved), [GetUpdates, Sleep(2), GetUpdates, DeleteWebhook]);
    assert [GetUpdates] + [Sleep(1)] + [GetUpdates, Sleep(2), GetUpdates, DeleteWebhook] ==
             [GetUpdates, Sleep(1), GetUpdates, Sleep(2), GetUpdates, DeleteWebhook];
  }

  /** `handle_telegram_conflict`, over the outcomes of its calls. */
  method HandleConflict(outcome: nat -> Outcome, retries: nat) returns (r: Result<()>, trace: seq<Action>)
    ensures (r, trace) == ConflictFrom(outcome, retries, 0)
  {
    ghost var whole := ConflictFrom(outcome, retries, 0);
    ghost var cur := whole;
    trace := [];
    var attempt := 0;
    assert trace + cur.1 == cur.1;
    while attempt < retries
      invariant 0 <= attempt <= retries
      invariant cur == ConflictFrom(outcome, retries, attempt)
      invariant whole == (cur.0, trace + cur.1)
    {
      var o := outcome(attempt);
      if o == Success {
        return Ok(()), trace + [GetUpdates];
      } else if o == Failure {
        return Err(PollingError), trace + [GetUpdates];
      }
      var wait := if attempt == retries - 1 then [DeleteWebhook] else [Sleep(attempt + 1)];
      ghost var rest := ConflictFrom(outcome, retries, attempt + 1);
      assert cur.1 == [GetUpdates] + wait + rest.1;
      Concat3(trace, [GetUpdates] + wait, rest.1);
      trace := trace + ([GetUpdates] + wait);
      cur := rest;
      attempt := attempt + 1;
    }
    assert trace + cur.1 == trace;
    return Err(ConflictUnresolved), trace;
  }


  /** Polling with retries from attempt `attempt` on: every attempt clears
      the webhook and waits a second before polling; a conflict clears the
      webhook again and backs off `2**attempt` seconds; any other failure
      raises on the last attempt only; running out of attempts returns. */
  function PollingFrom(outcome: nat -> Outcome, retries: nat, attempt: nat): (out: (Result<()>, seq<Action>))
    decreases retries - attempt
  {
    if attempt >= retries then (Ok(()), [])
    else
      var start := [DeleteWebhook, Sleep(1), Poll];
      match outcome(attempt)
      case Success => (Ok(()), start)
      case Conflict =>
        var rest := PollingFrom(outcome, retries, attempt + 1);
        (rest.0, start + [DeleteWebhook, Sleep(Pow2(attempt))] + rest.1)
      case Failure =>
        if attempt == retries - 1 then (Err(PollingError), start)
        else
          var rest := PollingFrom(outcome, retries, attempt + 1);
          (rest.0, start + rest.1)
  }

  /** Polling raises exactly when the last attempt fails with something
      other than a conflict and no attempt before it succeeded. */
  lemma {:induction false} PollingRaises(outcome: nat -> Outcome, retries: nat, attempt: nat)
    requires attempt <= retries
    ensures PollingFrom(outcome, retries, attempt).0.Err? <==>
              retries > attempt && outcome(retries - 1) == Failure &&
              forall a :: attempt <= a < retries - 1 ==> outcome(a) != Success
    ensures PollingFrom(outcome, retries, attempt).0.Err? ==> PollingFrom(outcome, retries, attempt).0.error == PollingError
    decreases retries - attempt
  {
    if attempt < retries && outcome(attempt) != Success && attempt != retries - 1 {
      PollingRaises(outcome, retries, attempt + 1);
    }
  }

  /** Three conflicts back off one, two and four seconds, then polling
      gives up without raising. */
  lemma PollingExhausted(outcome: nat -> Outcome)
    requires ConflictsBefore(outcome, 3)
    ensures PollingFrom(outcome, 3, 0) ==
              (Ok(()), [DeleteWebhook, Sleep(1), Poll, DeleteWebhook, Sleep(1),
                        DeleteWebhook, Sleep(1), Poll, DeleteWebhook, Sleep(2),
                        DeleteWebhook, Sleep(1), Poll, DeleteWebhook, Sleep(4)])
  {
    assert outcome(0) == Conflict && outcome(1) == Conflict && outcome(2) == Conflict;
    assert Pow2(2) == 4;
    assert PollingFrom(outcome, 3, 3) == (Ok(()), []);
    assert [DeleteWebhook, Sleep(1), Poll] + [DeleteWebhook, Sleep(4)] + [] ==
             [DeleteWebhook, Sleep(1), Poll, DeleteWebhook, Sleep(4)];
    assert PollingFrom(outcome, 3, 2) == (Ok(()), [DeleteWebhook, Sleep(1), Poll, DeleteWebhook, Sleep(4)]);
    var tail := [DeleteWebhook, Sleep(1), Poll, DeleteWebhook, Sleep(4)];
    var middle := [DeleteWebhook, Sleep(1), Poll, DeleteWebhook, Sleep(2)];
    assert [DeleteWebhook, Sleep(1), Poll] + [DeleteWebhook, Sleep(Pow2(1))] + tail == middle + tail;
    assert PollingFrom(outcome, 3, 1) == (Ok(()), middle + tail);
    assert [DeleteWebhook, Sleep(1), Poll] + [DeleteWebhook, Sleep(Pow2(0))] + (middle + tail) ==
             [DeleteWebhook, Sleep(1), Poll, DeleteWebhook, Sleep(1)] + middle + tail;
    assert [DeleteWebhook, Sleep(1), Poll, DeleteWebhook, Sleep(1)] + middle + tail ==
             [DeleteWebhook, Sleep(1), Poll, DeleteWebhook, Sleep(1),
              DeleteWebhook, Sleep(1), Poll, DeleteWebhook, Sleep(2),
              DeleteWebhook, Sleep(1), Poll, DeleteWebhook, Sleep(4)];
  }

  /** `start_polling_with_retry`, over the outcomes of its polling calls. */
  method StartPollingWithRetry(outcome: nat -> Outcome, retries: nat) returns (r: Result<()>, trace: seq<Action>)
    ensures (r, trace) == PollingFrom(outcome, retries, 0)
  {
    ghost var whole := PollingFrom(outcome, retries, 0);
    ghost var cur := whole;
    trace := [];
    var attempt := 0;
    assert trace + cur.1 == cur.1;
    while attempt < retries
      invariant 0 <= attempt <= retries
      invariant cur == PollingFrom(outcome, retries, attempt)
      invariant whole == (cur.0, trace + cur.1)
    {
      ghost var rest := PollingFrom(outcome, retries, attempt + 1);
      PollingStep(outcome, retries, attempt);
      var start := [DeleteWebhook, Sleep(1), Poll];
      var o := outcome(attempt);
      if o == Success {
        return Ok(()), trace + start;
      } else if o == Conflict {
        var backoff := [DeleteWebhook, Sleep(Pow2(attempt))];
        Concat3(trace, start + backoff, rest.1);
        trace := trace + (start + backoff);
      } else if attempt == retries - 1 {
        return Err(PollingError), trace + start;
      } else {
        Concat3(trace, start, rest.1);
        trace := trace + start;
      }
      cur := rest;
      attempt := attempt + 1;
    }
    assert trace + cur.1 == trace;
    return Ok(()), trace;
  }

  /** One attempt of the polling loop, and how the loop goes on from it. */
  lemma PollingStep(outcome: nat -> Outcome, retries: nat, attempt: nat)
    requires attempt < retries
    ensures var out := PollingFrom(outcome, retries, attempt);
            var start := [DeleteWebhook, Sleep(1), Poll];
            var rest := PollingFrom(outcome, retries, attempt + 1);
            (outcome(attempt) == Success ==> out == (Ok(()), start)) &&
            (outcome(attempt) == Conflict ==> out == (rest.0, start + [DeleteWebhook, Sleep(Pow2(attempt))] + rest.1)) &&
            (outcome(attempt) == Failure && attempt == retries - 1 ==> out == (Err(PollingError), start)) &&
            (outcome(attempt) == Failure && attempt < retries - 1 ==> out == (rest.0, start + rest.1))
  {
  }


  // -------------------------------------------------------------- client

  class SiaTelegram {
    const memory: Memory.SiaMemory
    const character: Character.SiaCharacter

    constructor (memory: Memory.SiaMemory, character: Character.SiaCharacter)
      ensures this.memory == memory && this.character == character
    {
      this.memory := memory;
      this.character := character;
    }

    /** `_handle_group_message`. */
    method HandleGroupMessage(m: TgMessage, now: int, respond: Responder, send: Sender)
      modifies memory
      ensures memory.Tables() == HandleMessage(old(memory.Tables()), m, character.platformSettings,
                                               character.responding, character.name, memory.characterName,
                                               now, respond, send)
    {
      var mapped := ToSiaMessage(m);
      if mapped.Err? {
        return;
      }
      var stored := memory.AddMessage(Some(InboundKey(m)), mapped.value, None, None, character.name, now);
      if stored.Err? {
        return;
      }
      var addressed := ShouldRespond(m, character.platformSettings);
      if addressed.Err? || !addressed.value {
        return;
      }
      var enabled := Get(character.responding, "enabled", JBool(true));
      if enabled.Err? || !JTruthy(enabled.value) {
        return;
      }
      var response := respond(stored.value);
      if response.None? {
        return;
      }
      var id := Publish(response, None, Some(IntToDecimal(m.messageId)), send);
      var _ := memory.AddMessage(Some(StoreKey(IntToDecimal(m.chatId), IdKey(id))), response.value, Some("reply"),
                                 None, character.name, now);
    }

    /** `post`. */
    method Post(now: int, generate: PostGenerator, send: Sender) returns (r: Result<()>)
      modifies memory
      ensures (memory.Tables(), r) == PostOnce(old(memory.Tables()), character.platformSettings,
                                                     character.name, memory.characterName, now, generate, send)
    {
      var ps := character.platformSettings;
      var enabled := Lookup(ps, [Platform, "post", "enabled"], JBool(false));
      if enabled.Err? {
        return Err(enabled.error);
      }
      if !JTruthy(enabled.value) {
        return Ok(());
      }
      var cfg := PostConfigOf(ps);
      if cfg.Err? {
        return Err(cfg.error);
      }
      var latest := GetMessages(memory.Tables(), PostQuery(cfg.value, character.name));
      var next := NextPostTime(latest, cfg.value.frequency, now);
      if next.Err? {
        return Err(next.error);
      }
      if now <= next.value {
        return Ok(());
      }
      var generated := generate(cfg.value.author, cfg.value.chat);
      if generated.Err? {
        return Err(generated.error);
      }
      var (post, media) := generated.value;
      if post.None? && (media.None? || media.value == []) {
        return Ok(());
      }
      var id := Publish(post, media, None, send);
      if !Truthy(id) {
        return Ok(());
      }
      var stored := memory.AddMessage(Some(StoreKey(JFormat(cfg.value.chat), id.value)), post.value, Some("post"),
                                      None, character.name, now);
      if stored.Err? {
        return Err(stored.error);
      }
      return Ok(());
    }
  }
}
