/** The Twitter client's decisions around the platform calls: how tweets
    are stored, which reply to search from, the posting gate and the settings
    it writes, the reply loop with its hourly cap, and the engagement rounds.
    Search, publishing, the generators and the clock are parameters. */
module Twitter {
  import opened Wrappers
  import opened Text
  import opened Records
  import opened Config
  import opened Store
  import Sorting
  import Memory
  import Character

  const Platform: string := "twitter"

  // -------------------------------------------------------------- tweets

  datatype TwUser = TwUser(id: int, username: string)
  /** A tweet as a search returns it, with the ids of the tweets it
      references. */
  datatype Tweet = Tweet(id: int, conversationId: int, text: string, authorId: int, referenced: seq<int>)
  /** A search response: the tweets, and the users and referenced tweets it
      includes; `None` marks an `includes` entry the response lacks. */
  datatype SearchResponse = SearchResponse(data: seq<Tweet>, users: Option<seq<TwUser>>, included: Option<seq<Tweet>>)

  /** The generated-message form of a tweet. */
  function TweetToMessage(t: Tweet, author: TwUser): (g: GeneratedMessage)
    ensures g.conversationId.Some? && ParseInt(g.conversationId.value) == Some(t.conversationId)
    ensures g.content == t.text && g.platform == Platform && g.author == author.username
    ensures g.responseTo.None? && g.character.None? && g.flagged == Some(false) && g.metadata.None?
  {
    ParseIntOfDecimal(t.conversationId);
    GeneratedMessage(Some(IntToDecimal(t.conversationId)), t.text, Platform, author.username, None, None,
                     Some(false), None)
  }

  /** The first included user with the given id. */
  function GetUserById(users: seq<TwUser>, id: int): (r: Option<TwUser>)
    ensures r.None? <==> forall u :: u in users ==> u.id != id
    ensures r.Some? ==> exists k :: 0 <= k < |users| && users[k] == r.value && r.value.id == id &&
                                   forall i :: 0 <= i < k ==> users[i].id != id
  {
    if users == [] then None
    else if users[0].id == id then Some(users[0])
    else
      var r := GetUserById(users[1..], id);
      assert forall u :: u in users ==> u == users[0] || u in users[1..];
      if r.Some? then
        var k :| 0 <= k < |users[1..]| && users[1..][k] == r.value && r.value.id == id &&
                 forall i :: 0 <= i < k ==> users[1..][i].id != id;
        assert users[k + 1] == r.value;
        assert forall i :: 0 < i < k + 1 ==> users[i] == users[1..][i - 1];
        r
      else r
  }

  // ------------------------------------------------------ since-id lookup

  /** The character's unflagged twitter messages by anyone but itself. */
  function RepliesQuery(own: Option<string>, name: Option<string>): Query {
    AllMessages.(platform := Some(Platform), notAuthor := own, character := name)
  }

  function MessageIds(ms: seq<Message>): (ids: seq<string>)
    ensures |ids| == |ms| && forall i :: 0 <= i < |ms| ==> ids[i] == ms[i].id
  {
    Sorting.MapSeq((m: Message) => m.id, ms)
  }

  /** The id to search replies from: the largest stored reply id in string
      order, or None when there is none or it is the text "None". */
  function LastRetrievedReplyId(db: Db, own: Option<string>, name: Option<string>): (r: Option<string>)
    ensures r.Some? ==> r.value != "None"
    ensures r.Some? ==> exists m :: m in db.messages && Matches(RepliesQuery(own, name), db.links, m) &&
                                   m.id == r.value
    ensures r.Some? ==> forall m :: m in db.messages && Matches(RepliesQuery(own, name), db.links, m) ==>
                                    LexLe(m.id, r.value)
    ensures r.None? && (exists m :: m in db.messages && Matches(RepliesQuery(own, name), db.links, m)) ==>
              exists m :: m in db.messages && Matches(RepliesQuery(own, name), db.links, m) && m.id == "None" &&
                          forall m' :: m' in db.messages && Matches(RepliesQuery(own, name), db.links, m') ==>
                                       LexLe(m'.id, "None")
  {
    var replies := GetMessages(db, RepliesQuery(own, name));
    if replies == [] then None
    else
      var ids := MessageIds(replies);
      MaxLexIsMaximum(ids);
      var top := MaxLex(ids);
      assert forall m :: m in replies ==> m.id in ids by {
        forall m | m in replies ensures m.id in ids {
          var k :| 0 <= k < |replies| && replies[k] == m;
          assert ids[k] == m.id;
        }
      }
      var k :| 0 <= k < |ids| && ids[k] == top;
      assert replies[k] in replies;
      if top == "None" then None else Some(top)
  }

  // ---------------------------------------------------------- storing

  /** `after` is `before` with rows appended, each flagged exactly when
      `testing`: what storing tweets does to the message table. */
  predicate Extends(before: seq<Message>, after: seq<Message>, testing: bool) {
    |before| <= |after| && after[..|before|] == before &&
    forall i :: |before| <= i < |after| ==> after[i].flagged == Some(testing)
  }

  lemma ExtendsRefl(ms: seq<Message>, testing: bool)
    ensures Extends(ms, ms, testing)
  {
    assert ms[..|ms|] == ms;
  }

  lemma ExtendsOne(ms: seq<Message>, m: Message, testing: bool)
    requires m.flagged == Some(testing)
    ensures Extends(ms, ms + [m], testing) && Extends(ms, ms, testing)
  {
    assert (ms + [m])[..|ms|] == ms;
  }

  lemma ExtendsTrans(a: seq<Message>, b: seq<Message>, c: seq<Message>, testing: bool)
    requires Extends(a, b, testing) && Extends(b, c, testing)
    ensures Extends(a, c, testing)
  {
    assert c[..|a|] == c[..|b|][..|a|];
    forall i | |a| <= i < |c| ensures c[i].flagged == Some(testing) {
      if i < |b| { assert c[i] == c[..|b|][i]; }
    }
  }

  /** What every store of a tweet shares: the own username, the testing
      mode, the memory's character name and the time of the insert. */
  datatype Ctx = Ctx(own: Option<string>, testing: bool, defaultName: string, now: int)

  /** The message a stored tweet becomes; in testing mode it is flagged and
      marked as test data. */
  function ToStore(t: Tweet, author: TwUser, testing: bool): (g: GeneratedMessage)
    ensures g.flagged == Some(testing)
    ensures g.author == author.username && g.content == t.text && g.platform == Platform
  {
    var g := TweetToMessage(t, author);
    if testing then g.(flagged := Some(true), metadata := Some(JObj(map["flagged" := JStr("test_data")]))) else g
  }

  /** `save_tweet_to_db`: a tweet whose id is stored already, flagged or not,
      is returned as stored; otherwise it is stored once. A missing author or
      a failing insert is caught and yields None. */
  function SaveTweet(db: Db, t: Tweet, author: Option<TwUser>, messageType: string, ctx: Ctx)
    : (out: (Db, Option<Message>))
    ensures out.0.settings == db.settings && out.0.social == db.social
    ensures IntToDecimal(t.id) in Ids(db.messages) ==> out.0 == db && out.1.Some?
    ensures out.1.Some? ==> out.1.value.id == IntToDecimal(t.id) && out.1.value in out.0.messages
    ensures IntToDecimal(t.id) !in Ids(db.messages) && author.None? ==> out == (db, None)
    ensures out.0.messages == db.messages ||
            (out.1.Some? && out.0.messages == db.messages + [out.1.value] &&
             out.1.value.messageType == Some(messageType) && out.1.value.flagged == Some(ctx.testing))
    ensures Extends(db.messages, out.0.messages, ctx.testing)
  {
    var key := IntToDecimal(t.id);
    var existing := GetMessages(db, AllMessages.(id := Some(key), flagged := 2));
    assert forall m :: m in db.messages && m.id == key ==> m in existing;
    ExtendsRefl(db.messages, ctx.testing);
    if existing != [] then
      assert existing[0] in existing;
      (db, Some(existing[0]))
    else if author.None? then (db, None)
    else
      var g := ToStore(t, author.value, ctx.testing);
      var (db1, r) := AddMessage(db, Some(key), g, Some(messageType), None, None, ctx.defaultName, ctx.now);
      ExtendsOne(db.messages, NewRow(Some(key), g, Some(messageType), None, ctx.now), ctx.testing);
      (db1, if r.Ok? then Some(r.value) else None)
  }

  /** In a table with one row per id, a stored tweet is returned as it is. */
  lemma SaveTweetStored(db: Db, t: Tweet, author: Option<TwUser>, messageType: string, ctx: Ctx, m: Message)
    requires UniqueIds(db.messages)
    requires m in db.messages && m.id == IntToDecimal(t.id)
    ensures SaveTweet(db, t, author, messageType, ctx) == (db, Some(m))
  {
    var out := SaveTweet(db, t, author, messageType, ctx);
    var s := out.1.value;
    assert s in db.messages;
    var i :| 0 <= i < |db.messages| && db.messages[i] == s;
    var j :| 0 <= j < |db.messages| && db.messages[j] == m;
    assert i == j;
  }

  /** Which tweets `exclude_own` leaves out. As written it compares the
      author object with the username, which matches only when both are
      missing; the evident intent compares the author's username. */
  datatype OwnRule = KeepAll | CompareObject | CompareUsername

  predicate Excluded(rule: OwnRule, author: Option<TwUser>, own: Option<string>) {
    match rule
    case KeepAll => false
    case CompareObject => author.None? && own.None?
    case CompareUsername => author.Some? && own == Some(author.value.username)
  }

  /** The character has answered the tweet: one of its messages, flagged or
      not, continues the conversation the tweet starts. */
  predicate Responded(db: Db, t: Tweet, own: Option<string>) {
    GetMessages(db, AllMessages.(conversationId := Some(IntToDecimal(t.id)), author := own, flagged := 2)) != []
  }

  /** Stores the included tweets with id `ref`, in order, appending what each
      store returns, None included. */
  function SaveIncluded(db: Db, out: seq<Option<Message>>, ref: int, inc: seq<Tweet>, users: seq<TwUser>, ctx: Ctx)
    : (r: (Db, seq<Option<Message>>))
    ensures r.0.settings == db.settings && r.0.social == db.social
    ensures |r.1| >= |out| && r.1[..|out|] == out && Extends(db.messages, r.0.messages, ctx.testing)
    decreases |inc|
  {
    if inc == [] then (db, out)
    else if inc[0].id == ref then
      var (db1, s) := SaveTweet(db, inc[0], GetUserById(users, inc[0].authorId), "reply", ctx);
      var r := SaveIncluded(db1, out + [s], ref, inc[1..], users, ctx);
      assert r.1[..|out|] == (out + [s])[..|out|];
      ExtendsTrans(db.messages, db1.messages, r.0.messages, ctx.testing);
      r
    else SaveIncluded(db, out, ref, inc[1..], users, ctx)
  }

  /** Stores the referenced tweets of one tweet. */
  function SaveRefs(db: Db, out: seq<Option<Message>>, refs: seq<int>, inc: seq<Tweet>, users: seq<TwUser>, ctx: Ctx)
    : (r: (Db, seq<Option<Message>>))
    ensures r.0.settings == db.settings && r.0.social == db.social
    ensures |r.1| >= |out| && r.1[..|out|] == out && Extends(db.messages, r.0.messages, ctx.testing)
    decreases |refs|
  {
    if refs == [] then (db, out)
    else
      var (db1, out1) := SaveIncluded(db, out, refs[0], inc, users, ctx);
      var r := SaveRefs(db1, out1, refs[1..], inc, users, ctx);
      assert r.1[..|out|] == r.1[..|out1|][..|out|];
      ExtendsTrans(db.messages, db1.messages, r.0.messages, ctx.testing);
      r
  }

  /** One pass of the loop of `save_tweets_to_db`: the tweet is skipped when
      excluded as the character's own, stored, then returned together with
      what it references unless it was already answered. */
  function SaveStep(db: Db, out: seq<Option<Message>>, t: Tweet, users: seq<TwUser>, inc: seq<Tweet>,
                    rule: OwnRule, excludeResponded: bool, ctx: Ctx): (r: (Db, seq<Option<Message>>))
    ensures r.0.settings == db.settings && r.0.social == db.social
    ensures |r.1| >= |out| && r.1[..|out|] == out && Extends(db.messages, r.0.messages, ctx.testing)
  {
    var author := GetUserById(users, t.authorId);
    if Excluded(rule, author, ctx.own) then (db, out)
    else
      var (db1, s) := SaveTweet(db, t, author, "reply", ctx);
      if excludeResponded && Responded(db1, t, ctx.own) then (db1, out)
      else
        var out1 := if s.Some? then out + [s] else out;
        var r := SaveRefs(db1, out1, t.referenced, inc, users, ctx);
        assert r.1[..|out|] == r.1[..|out1|][..|out|];
        ExtendsTrans(db.messages, db1.messages, r.0.messages, ctx.testing);
        r
  }

  /** The loop of `save_tweets_to_db` from the first of `tweets` on. */
  function SaveFrom(db: Db, out: seq<Option<Message>>, tweets: seq<Tweet>, users: seq<TwUser>, inc: seq<Tweet>,
                    rule: OwnRule, excludeResponded: bool, ctx: Ctx): (r: (Db, seq<Option<Message>>))
    ensures r.0.settings == db.settings && r.0.social == db.social
    ensures |r.1| >= |out| && r.1[..|out|] == out && Extends(db.messages, r.0.messages, ctx.testing)
    decreases |tweets|
  {
    if tweets == [] then (db, out)
    else
      var (db1, out1) := SaveStep(db, out, tweets[0], users, inc, rule, excludeResponded, ctx);
      var r := SaveFrom(db1, out1, tweets[1..], users, inc, rule, excludeResponded, ctx);
      assert r.1[..|out|] == r.1[..|out1|][..|out|];
      ExtendsTrans(db.messages, db1.messages, r.0.messages, ctx.testing);
      r
  }

  /** `save_tweets_to_db`: the stored form of each found tweet, then of the
      tweets it references. A response without users raises once there is a
      tweet to look an author up for. */
  function SaveTweets(db: Db, resp: SearchResponse, rule: OwnRule, excludeResponded: bool, ctx: Ctx)
    : (out: (Db, Result<seq<Option<Message>>>))
    ensures resp.data == [] ==> out == (db, Ok([]))
    ensures out.1.Err? <==> resp.data != [] && resp.users.None?
    ensures out.1.Err? ==> out.0 == db && out.1.error == KeyError
    ensures out.0.settings == db.settings && out.0.social == db.social && Extends(db.messages, out.0.messages, ctx.testing)
  {
    if resp.data == [] then (db, Ok([]))
    else if resp.users.None? then (db, Err(KeyError))
    else
      var (db1, out) := SaveFrom(db, [], resp.data, resp.users.value, resp.included.GetOr([]), rule,
                                 excludeResponded, ctx);
      (db1, Ok(out))
  }

  /** As written, `exclude_own` excludes nothing while the character has a
      username. */
  lemma {:induction false} ExcludeOwnInert(db: Db, out: seq<Option<Message>>, tweets: seq<Tweet>, users: seq<TwUser>,
                                           inc: seq<Tweet>, excludeResponded: bool, ctx: Ctx)
    requires ctx.own.Some?
    ensures SaveFrom(db, out, tweets, users, inc, CompareObject, excludeResponded, ctx) ==
            SaveFrom(db, out, tweets, users, inc, KeepAll, excludeResponded, ctx)
    decreases |tweets|
  {
    if tweets != [] {
      var (db1, out1) := SaveStep(db, out, tweets[0], users, inc, KeepAll, excludeResponded, ctx);
      assert SaveStep(db, out, tweets[0], users, inc, CompareObject, excludeResponded, ctx) == (db1, out1);
      ExcludeOwnInert(db1, out1, tweets[1..], users, inc, excludeResponded, ctx);
    }
  }

  /** The tweets not authored by the own username. */
  function NotOwn(tweets: seq<Tweet>, users: seq<TwUser>, own: Option<string>): (r: seq<Tweet>)
    ensures forall t :: t in r ==> t in tweets && !Excluded(CompareUsername, GetUserById(users, t.authorId), own)
  {
    if tweets == [] then []
    else
      var rest := NotOwn(tweets[1..], users, own);
      if Excluded(CompareUsername, GetUserById(users, tweets[0].authorId), own) then rest else [tweets[0]] + rest
  }

  /** Comparing usernames leaves out exactly the character's own tweets:
      the rest are stored as if nothing were excluded. */
  lemma {:induction false} ExcludeOwnFixed(db: Db, out: seq<Option<Message>>, tweets: seq<Tweet>, users: seq<TwUser>,
                                           inc: seq<Tweet>, excludeResponded: bool, ctx: Ctx)
    ensures SaveFrom(db, out, tweets, users, inc, CompareUsername, excludeResponded, ctx) ==
            SaveFrom(db, out, NotOwn(tweets, users, ctx.own), users, inc, KeepAll, excludeResponded, ctx)
    decreases |tweets|
  {
    if tweets != [] {
      var t := tweets[0];
      var rest := NotOwn(tweets[1..], users, ctx.own);
      if Excluded(CompareUsername, GetUserById(users, t.authorId), ctx.own) {
        ExcludeOwnFixed(db, out, tweets[1..], users, inc, excludeResponded, ctx);
      } else {
        var nt := [t] + rest;
        assert nt[0] == t && nt[1..] == rest;
        var (db1, out1) := SaveStep(db, out, t, users, inc, KeepAll, excludeResponded, ctx);
        assert SaveStep(db, out, t, users, inc, CompareUsername, excludeResponded, ctx) == (db1, out1);
        ExcludeOwnFixed(db1, out1, tweets[1..], users, inc, excludeResponded, ctx);
      }
    }
  }

  /** Storing a tweet never makes an answered tweet unanswered. */
  lemma RespondedPersists(db: Db, db1: Db, t: Tweet, own: Option<string>)
    requires db.messages <= db1.messages
    requires Responded(db, t, own)
    ensures Responded(db1, t, own)
  {
    var q := AllMessages.(conversationId := Some(IntToDecimal(t.id)), author := own, flagged := 2);
    var m := GetMessages(db, q)[0];
    assert m in GetMessages(db, q);
    assert m in db1.messages;
    assert Matches(q, db1.links, m);
  }

  /** With `exclude_responded_to`, a tweet the character has answered is
      stored but neither it nor what it references is returned. */
  lemma RespondedSkipped(db: Db, out: seq<Option<Message>>, t: Tweet, users: seq<TwUser>, inc: seq<Tweet>,
                         rule: OwnRule, ctx: Ctx)
    requires Responded(db, t, ctx.own)
    ensures SaveStep(db, out, t, users, inc, rule, true, ctx).1 == out
  {
    var author := GetUserById(users, t.authorId);
    if !Excluded(rule, author, ctx.own) {
      RespondedPersists(db, SaveTweet(db, t, author, "reply", ctx).0, t, ctx.own);
    }
  }

  // ----------------------------------------------------------- publishing

  /** A request to create a tweet: its text, the media files to upload with
      it (none when there are none) and the tweet it answers, when set. */
  datatype PublishRequest = PublishRequest(text: string, media: seq<string>, inReplyTo: Option<string>)
  /** What the platform does with a request: it creates the tweet under an
      id, or refuses with an exception that carries a response or one that
      does not. */
  datatype PublishOutcome = Created(id: string) | Refused(hasResponse: bool)
  type Publisher = PublishRequest -> PublishOutcome

  function RequestOf(message: GeneratedMessage, media: Option<seq<string>>, inReplyTo: Option<string>)
    : (req: PublishRequest)
    ensures req.text == message.content
    ensures req.inReplyTo.Some? <==> Truthy(inReplyTo)
    ensures req.inReplyTo.Some? ==> req.inReplyTo == inReplyTo
  {
    PublishRequest(message.content, media.GetOr([]), if Truthy(inReplyTo) then inReplyTo else None)
  }

  /** `publish_message`: the new tweet's id. A refusal is reported and yields
      None, unless the exception has no response to report, which raises;
      so does a missing message, whose content is read inside the same
      handler. */
  function PublishMessage(message: Option<GeneratedMessage>, media: Option<seq<string>>, inReplyTo: Option<string>,
                          publish: Publisher): (r: Result<Option<string>>)
    ensures r.Err? ==> r.error == AttributeError
    ensures message.None? ==> r.Err?
    ensures message.Some? ==>
              var outcome := publish(RequestOf(message.value, media, inReplyTo));
              (r.Err? <==> outcome == Refused(false)) &&
              (r == Ok(None) <==> outcome == Refused(true)) &&
              (outcome.Created? <==> r.Ok? && r.value.Some?) &&
              (outcome.Created? ==> r.value.value == outcome.id)
  {
    if message.None? then Err(AttributeError)
    else
      match publish(RequestOf(message.value, media, inReplyTo))
      case Created(id) => Ok(Some(id))
      case Refused(hasResponse) => if hasResponse then Ok(None) else Err(AttributeError)
  }

  // -------------------------------------------------------------- posting

  /** `character_settings.get("twitter", {}).get("next_post_time", 0)`, used
      as a number. */
  function NextPostTime(bag: map<string, Json>): (r: Result<int>)
    ensures Platform !in bag ==> r == Ok(0)
    ensures Platform in bag && bag[Platform].JObj? && "next_post_time" in bag[Platform].fields ==>
              r == JInt(bag[Platform].fields["next_post_time"])
    ensures Platform in bag && !bag[Platform].JObj? ==> r == Err(AttributeError)
  {
    var twitter := if Platform in bag then bag[Platform] else EmptyObject;
    var next := Get(twitter, "next_post_time", JNum(0));
    if next.Err? then Err(next.error) else JInt(next.value)
  }

  /** The whole settings bag after a post: only the next time to post,
      `frequency` hours on. */
  function PostedBag(now: int, frequency: int): (bag: map<string, Json>)
    ensures NextPostTime(bag) == Ok(now + frequency * 3600)
    ensures bag.Keys == {Platform}
  {
    map[Platform := JObj(map["next_post_time" := JNum(now + frequency * 3600)])]
  }

  /** The post generator, given the author: a message and media files,
      either of which may be absent. */
  type PostGenerator = Option<string> -> (Option<GeneratedMessage>, Option<seq<string>>)

  /** What identifies the character to the tables and the platform. */
  datatype Identity = Identity(nameId: string, name: Option<string>, own: Option<string>, defaultName: string)

  /** `post`. The settings row is read (and created under `freshId` if
      missing) first. Posting happens only when it is enabled and the stored
      next post time has passed; a post that is published is stored as a
      "post" under its tweet id, and the settings bag is then replaced by the
      next post time alone. */
  function PostOnce(db: Db, who: Identity, freshId: string, platformSettings: Json, now: int,
                    generate: PostGenerator, publish: Publisher): (out: (Db, Result<()>))
    ensures out.0.social == db.social
    ensures out.0.messages == db.messages ||
            (|out.0.messages| == |db.messages| + 1 && out.0.messages[..|db.messages|] == db.messages &&
             out.0.messages[|db.messages|].messageType == Some("post") &&
             out.0.messages[|db.messages|].wenPosted == now)
    ensures var (post, media) := generate(who.own);
            var id := PublishMessage(post, media, None, publish);
            out.0.messages != db.messages ==>
              post.Some? && id.Ok? && Truthy(id.value) &&
              out.0.messages[|db.messages|] == NewRow(id.value, post.value, Some("post"), None, now)
  {
    var (db1, row) := GetCharacterSettings(db, who.nameId, freshId);
    if row.Err? then (db1, Err(row.error))
    else
      var next := NextPostTime(row.value.bag);
      if next.Err? then (db1, Err(next.error))
      else
        var enabled := Lookup(platformSettings, [Platform, "post", "enabled"], JBool(false));
        if enabled.Err? then (db1, Err(enabled.error))
        else if !(JTruthy(enabled.value) && now > next.value) then (db1, Ok(()))
        else
          PostGenerated(db1, row.value, who, platformSettings, now, generate(who.own), publish)
  }

  /** The posting settings are read from one dictionary. */
  lemma PostLookups(platformSettings: Json)
    requires Lookup(platformSettings, [Platform, "post", "enabled"], JBool(false)).Ok?
    ensures Lookup(platformSettings, [Platform, "post_frequency"], JNum(2)).Ok?
  {
    assert [Platform, "post", "enabled"][1..] == ["post", "enabled"];
    assert [Platform, "post_frequency"][1..] == ["post_frequency"];
  }

  /** `post` once the post is generated: a post with nothing in it is
      skipped, one with media but no message raises while its length is
      logged. */
  function PostGenerated(db: Db, row: SettingsRow, who: Identity, platformSettings: Json, now: int,
                         generated: (Option<GeneratedMessage>, Option<seq<string>>), publish: Publisher)
    : (out: (Db, Result<()>))
    ensures out.0.social == db.social
    ensures out.0.messages == db.messages ||
            (|out.0.messages| == |db.messages| + 1 && out.0.messages[..|db.messages|] == db.messages &&
             out.0.messages[|db.messages|].messageType == Some("post") &&
             out.0.messages[|db.messages|].wenPosted == now)
    ensures out.0.messages != db.messages && out.1.Ok? ==>
              var frequency := Lookup(platformSettings, [Platform, "post_frequency"], JNum(2));
              frequency.Ok? && JInt(frequency.value).Ok? &&
              out.0.settings == UpdateCharacterSettings(db, who.nameId,
                                                        row.(bag := PostedBag(now, JInt(frequency.value).value))).0.settings &&
              UpdateCharacterSettings(db, who.nameId, row.(bag := PostedBag(now, JInt(frequency.value).value))).1.Ok?
    ensures var id := PublishMessage(generated.0, generated.1, None, publish);
            out.0.messages != db.messages ==>
              generated.0.Some? && id.Ok? && Truthy(id.value) &&
              out.0.messages[|db.messages|] == NewRow(id.value, generated.0.value, Some("post"), None, now)
    ensures var id := PublishMessage(generated.0, generated.1, None, publish);
            generated.0.Some? && id.Ok? && !Truthy(id.value) ==> out == (db, Ok(()))
  {
    var (post, media) := generated;
    if post.None? && (media.None? || media.value == []) then (db, Ok(()))
    else if post.None? then (db, Err(AttributeError))
    else
      var id := PublishMessage(post, media, None, publish);
      if id.Err? then (db, Err(id.error))
      else if !Truthy(id.value) then (db, Ok(()))
      else
        var (db2, stored) := AddMessage(db, id.value, post.value, Some("post"), None, None, who.defaultName, now);
        if stored.Err? then (db2, Err(stored.error))
        else
          var frequency := Lookup(platformSettings, [Platform, "post_frequency"], JNum(2));
          var f := if frequency.Err? then Err(frequency.error) else JInt(frequency.value);
          if f.Err? then (db2, Err(f.error))
          else UpdateCharacterSettings(db2, who.nameId, row.(bag := PostedBag(now, f.value)))
  }

  /** When posting is disabled, or not yet due, `post` only reads the
      settings row: no message is stored and no setting changes. */
  lemma PostNotDue(db: Db, who: Identity, freshId: string, platformSettings: Json, now: int,
                   generate: PostGenerator, publish: Publisher)
    requires GetCharacterSettings(db, who.nameId, freshId).1.Ok?
    requires NextPostTime(GetCharacterSettings(db, who.nameId, freshId).1.value.bag).Ok?
    requires Lookup(platformSettings, [Platform, "post", "enabled"], JBool(false)).Ok?
    requires !JTruthy(Lookup(platformSettings, [Platform, "post", "enabled"], JBool(false)).value) ||
             now <= NextPostTime(GetCharacterSettings(db, who.nameId, freshId).1.value.bag).value
    ensures PostOnce(db, who, freshId, platformSettings, now, generate, publish) ==
              (GetCharacterSettings(db, who.nameId, freshId).0, Ok(()))
  {
  }

  /** A post that is published and stored moves the next post time
      `post_frequency` hours past now: the settings read back give exactly
      that time. */
  lemma PostMovesNextTime(db: Db, who: Identity, freshId: string, platformSettings: Json, now: int,
                          generate: PostGenerator, publish: Publisher, freshId2: string)
    requires Valid(db) && CountNameId(db.settings, who.nameId) <= 1
    requires PostOnce(db, who, freshId, platformSettings, now, generate, publish).0.messages != db.messages
    ensures var frequency := Lookup(platformSettings, [Platform, "post_frequency"], JNum(2));
            var (db2, r) := PostOnce(db, who, freshId, platformSettings, now, generate, publish);
            r.Ok? ==>
              frequency.Ok? && JInt(frequency.value).Ok? &&
              GetCharacterSettings(db2, who.nameId, freshId2).1.Ok? &&
              GetCharacterSettings(db2, who.nameId, freshId2).1.value.bag ==
                PostedBag(now, JInt(frequency.value).value)
  {
    var (db1, row) := GetCharacterSettings(db, who.nameId, freshId);
    var (db2, r) := PostOnce(db, who, freshId, platformSettings, now, generate, publish);
    var frequency := Lookup(platformSettings, [Platform, "post_frequency"], JNum(2));
    if r.Ok? {
      assert (db2, r) == PostGenerated(db1, row.value, who, platformSettings, now, generate(who.own), publish);
      var bag := PostedBag(now, JInt(frequency.value).value);
      SettingsReadBack(db, who.nameId, freshId, bag, freshId2);
      var db3 := UpdateCharacterSettings(db1, who.nameId, row.value.(bag := bag)).0;
      assert db2.settings == db3.settings;
      assert GetCharacterSettings(db2, who.nameId, freshId2).1 == GetCharacterSettings(db3, who.nameId, freshId2).1;
    }
  }

  /** Posts are spaced: after a post at `now`, a second call earlier than
      `post_frequency` hours on stores nothing. */
  lemma PostSpaced(db: Db, who: Identity, freshId: string, platformSettings: Json, now: int, later: int,
                   generate: PostGenerator, publish: Publisher, freshId2: string)
    requires Valid(db) && CountNameId(db.settings, who.nameId) <= 1
    requires PostOnce(db, who, freshId, platformSettings, now, generate, publish).0.messages != db.messages
    requires PostOnce(db, who, freshId, platformSettings, now, generate, publish).1.Ok?
    requires var frequency := Lookup(platformSettings, [Platform, "post_frequency"], JNum(2));
             frequency.Ok? && JInt(frequency.value).Ok? && later <= now + JInt(frequency.value).value * 3600
    ensures var db2 := PostOnce(db, who, freshId, platformSettings, now, generate, publish).0;
            PostOnce(db2, who, freshId2, platformSettings, later, generate, publish).0.messages == db2.messages
  {
    PostMovesNextTime(db, who, freshId, platformSettings, now, generate, publish, freshId2);
  }

  // ------------------------------------------------------------- replying

  /** A search: the query, the tweet to search after and the time window,
      each only when set. */
  datatype SearchRequest = SearchRequest(query: string, sinceId: Option<string>, startTime: Option<int>,
                                         endTime: Option<int>)
  type Searcher = SearchRequest -> SearchResponse

  /** An optional username as an f-string prints it. */
  function Printed(o: Option<string>): (r: string)
    ensures o.Some? ==> r == o.value
  {
    if o.Some? then o.value else "None"
  }

  /** The mentions search: tweets to the character or naming it. */
  function MentionsQuery(own: Option<string>): (q: string)
    ensures own.Some? ==> q == "to:" + own.value + " OR @" + own.value
  {
    "to:" + Printed(own) + " OR @" + Printed(own)
  }

  /** The character's own unflagged twitter messages, newest first. */
  function SentQuery(who: Identity): Query {
    AllMessages.(platform := Some(Platform), character := who.name, author := who.own, sortBy := Some(WenPosted),
                 sortOrder := "desc")
  }

  /** How many of `ms` were posted in the hour before `now`. */
  function CountRecent(ms: seq<Message>, now: int): (n: nat)
    ensures n <= |ms|
    ensures n == 0 <==> forall i :: 0 <= i < |ms| ==> ms[i].wenPosted <= now - 3600
  {
    if ms == [] then 0
    else
      var rest := CountRecent(ms[1..], now);
      assert forall i :: 0 < i < |ms| ==> ms[i] == ms[1..][i - 1];
      (if ms[0].wenPosted > now - 3600 then 1 else 0) + rest
  }

  /** `get_conversation`: the unflagged messages of a conversation, oldest
      first. An absent conversation id filters nothing. */
  function ConversationQuery(conversationId: Option<string>): Query {
    AllMessages.(conversationId := conversationId, sortBy := Some(WenPosted), sortOrder := "asc", flagged := 0)
  }

  /** How many of `ms` the character wrote; none when it has no username. */
  function CountAuthored(ms: seq<Message>, own: Option<string>): (n: nat)
    ensures n <= |ms|
    ensures own.None? ==> n == 0
  {
    if ms == [] then 0 else (if own == Some(ms[0].author) then 1 else 0) + CountAuthored(ms[1..], own)
  }

  /** The response generator for one mention; None when it declines. */
  type Responder = Message -> Option<GeneratedMessage>

  /** What the reply loop holds fixed. `countSent` says whether a created
      reply counts towards the hourly cap. */
  datatype ReplyEnv = ReplyEnv(who: Identity, cap: Json, countSent: bool, now: int, respond: Responder,
                               publish: Publisher)

  /** What answering one mention comes to: the loop skips it, stops, raises,
      or goes on with the reply stored and `created` replies created. */
  datatype ReplyStep = Skip | Halt | Failed(error: Error) | Answered(db: Db, created: nat)

  /** How many replies of the character the mention's conversation holds. */
  function OwnInConversation(db: Db, conversationId: Option<string>, own: Option<string>): (n: nat)
    ensures n <= |db.messages|
  {
    CountAuthored(GetMessages(db, ConversationQuery(conversationId)), own)
  }

  /** The generated reply published as an answer to `r`, then stored under
      its tweet id, "None" for a refused one. */
  function SendReply(db: Db, r: Message, g: GeneratedMessage, env: ReplyEnv): (step: ReplyStep)
    ensures step.Failed? || step.Answered?
    ensures step.Answered? ==> step.created <= 1 && step.db.settings == db.settings &&
                               step.db.social == db.social && db.messages <= step.db.messages
    ensures var id := PublishMessage(Some(g), None, Some(r.id), env.publish);
            step.Answered? ==>
              id.Ok? && (step.created == 1 <==> id.value.Some?) &&
              IdKey(id.value) in Ids(step.db.messages) &&
              (IdKey(id.value) !in Ids(db.messages) ==>
                 step.db.messages == db.messages + [NewRow(id.value, g, Some("reply"), None, env.now)])
    ensures PublishMessage(Some(g), None, Some(r.id), env.publish).Err? ==> step == Failed(AttributeError)
  {
    var id := PublishMessage(Some(g), None, Some(r.id), env.publish);
    if id.Err? then Failed(id.error)
    else
      var (db1, stored) := AddMessage(db, id.value, g, Some("reply"), None, None, env.who.defaultName, env.now);
      if stored.Err? then Failed(stored.error)
      else Answered(db1, if id.value.Some? then 1 else 0)
  }

  /** One pass of the reply loop with `sent` replies counted this hour.
      Flagged mentions are skipped; the loop stops at the cap; conversations
      with three replies of the character are skipped, as are mentions the
      generator declines. */
  function Answer(db: Db, cand: Option<Message>, sent: int, env: ReplyEnv): (step: ReplyStep)
    ensures step.Answered? ==> step.created <= 1 && step.db.settings == db.settings &&
                               step.db.social == db.social && db.messages <= step.db.messages
    ensures step.Answered? ==> JInt(env.cap).Ok? && sent < JInt(env.cap).value
    ensures step.Halt? <==> cand.Some? && !IsFlagged(cand.value) && JInt(env.cap).Ok? && sent >= JInt(env.cap).value
    ensures cand.None? ==> step == Failed(AttributeError)
  {
    if cand.None? then Failed(AttributeError)
    else
      var r := cand.value;
      if IsFlagged(r) then Skip
      else
        var cap := JInt(env.cap);
        if cap.Err? then Failed(cap.error)
        else if sent >= cap.value then Halt
        else if OwnInConversation(db, r.conversationId, env.who.own) >= 3 then Skip
        else
          var g := env.respond(r);
          if g.None? then Skip else SendReply(db, r, g.value, env)
  }

  /** The rules the reply loop applies to each mention: a flagged mention is
      skipped; below the cap, so is a conversation already holding three
      replies of the character, and a mention the generator declines;
      otherwise the reply is sent. */
  lemma AnswerRules(db: Db, cand: Option<Message>, sent: int, env: ReplyEnv)
    ensures var step := Answer(db, cand, sent, env);
            (cand.Some? && IsFlagged(cand.value) ==> step == Skip) &&
            (step.Answered? ==> cand.Some? && !IsFlagged(cand.value) &&
                                OwnInConversation(db, cand.value.conversationId, env.who.own) < 3 &&
                                env.respond(cand.value).Some?)
    ensures var step := Answer(db, cand, sent, env);
            cand.Some? && !IsFlagged(cand.value) && JInt(env.cap).Ok? && sent < JInt(env.cap).value ==>
              (OwnInConversation(db, cand.value.conversationId, env.who.own) >= 3 ==> step == Skip) &&
              (env.respond(cand.value).None? ==> step == Skip) &&
              (OwnInConversation(db, cand.value.conversationId, env.who.own) < 3 && env.respond(cand.value).Some? ==>
                 step == SendReply(db, cand.value, env.respond(cand.value).value, env))
  {
  }

  /** The hourly count after a reply that created `created` tweets. */
  function SentAfter(sent: int, created: nat, countSent: bool): (r: int)
    ensures countSent ==> r == sent + created
    ensures !countSent ==> r == sent
  {
    if countSent then sent + created else sent
  }

  /** A count carried past a later failure. */
  function Plus(r: Result<nat>, c: nat): (s: Result<nat>)
    ensures s.Err? <==> r.Err?
    ensures s.Ok? ==> s.value == r.value + c
  {
    if r.Err? then r else Ok(r.value + c)
  }

  /** The reply loop over the shuffled mentions from the first of `cands`
      on; the result is the number of replies created. */
  function ReplyFrom(db: Db, cands: seq<Option<Message>>, sent: int, env: ReplyEnv): (out: (Db, Result<nat>))
    ensures out.0.settings == db.settings && out.0.social == db.social && db.messages <= out.0.messages
    ensures out.1.Ok? ==> out.1.value <= |cands|
    ensures env.countSent && JInt(env.cap).Ok? && out.1.Ok? ==>
              out.1.value as int <= if JInt(env.cap).value > sent then JInt(env.cap).value - sent else 0
    decreases |cands|
  {
    if cands == [] then (db, Ok(0))
    else
      match Answer(db, cands[0], sent, env)
      case Failed(e) => (db, Err(e))
      case Halt => (db, Ok(0))
      case Skip => ReplyFrom(db, cands[1..], sent, env)
      case Answered(db1, created) =>
        var rest := ReplyFrom(db1, cands[1..], SentAfter(sent, created, env.countSent), env);
        (rest.0, Plus(rest.1, created))
  }

  /** `reply`, when responding is enabled: the mentions since the last
      stored one are searched and stored, then answered in random order up
      to `responses_an_hour` (3 by default). */
  function ReplyOnce(db: Db, who: Identity, testing: bool, responding: Json, now: int, countSent: bool,
                 randomKey: nat -> int, search: Searcher, respond: Responder, publish: Publisher)
    : (out: (Db, Result<nat>))
    ensures out.0.settings == db.settings && out.0.social == db.social && db.messages <= out.0.messages
    ensures !responding.JObj? ==> out == (db, Err(AttributeError))
  {
    var enabled := Get(responding, "enabled", JBool(true));
    if enabled.Err? then (db, Err(enabled.error))
    else if !JTruthy(enabled.value) then (db, Ok(0))
    else
      var since := LastRetrievedReplyId(db, who.own, who.name);
      var resp := search(SearchRequest(MentionsQuery(who.own), if Truthy(since) then since else None, None, None));
      var (db1, saved) := SaveTweets(db, resp, CompareObject, false, Ctx(who.own, testing, who.defaultName, now));
      if saved.Err? then (db1, Err(saved.error))
      else
        var sent := CountRecent(GetMessages(db1, SentQuery(who)), now);
        var cap := Get(responding, "responses_an_hour", JNum(3)).value;
        if saved.value == [] then (db1, Ok(0))
        else ReplyFrom(db1, Sorting.Shuffle(saved.value, randomKey), sent, ReplyEnv(who, cap, countSent, now, respond, publish))
  }

  /** A mention that passes every check, in a conversation holding fewer
      than three replies of the character, is answered with one created
      reply, stored under its tweet id. */
  lemma AnswerCreates(db: Db, m: Message, sent: int, env: ReplyEnv, g: GeneratedMessage, id: string)
    requires !IsFlagged(m) && JInt(env.cap).Ok? && sent < JInt(env.cap).value
    requires OwnInConversation(db, m.conversationId, env.who.own) < 3
    requires env.respond(m) == Some(g) && env.publish(RequestOf(g, None, Some(m.id))) == Created(id)
    requires id !in Ids(db.messages) && id !in db.links
    ensures Answer(db, Some(m), sent, env) ==
              Answered(AddMessage(db, Some(id), g, Some("reply"), None, None, env.who.defaultName, env.now).0, 1)
  {
    assert PublishMessage(Some(g), None, Some(m.id), env.publish) == Ok(Some(id));
  }

  /** As written, the count of replies sent this hour is never increased,
      so one pass answers every candidate even when the cap allows one: two
      fresh mentions and a cap of one give two replies. */
  lemma ReplyCapIgnored(m1: Message, m2: Message, g: GeneratedMessage, who: Identity, now: int)
    requires !IsFlagged(m1) && !IsFlagged(m2)
    requires m1.id != "" && m2.id != "" && m1.id != m2.id
    ensures var env := ReplyEnv(who, JNum(1), false, now, (m: Message) => Some(g),
                                (req: PublishRequest) => Created(req.inReplyTo.GetOr("") + "-re"));
            ReplyFrom(Empty, [Some(m1), Some(m2)], 0, env).1 == Ok(2)
  {
    var env := ReplyEnv(who, JNum(1), false, now, (m: Message) => Some(g),
                        (req: PublishRequest) => Created(req.inReplyTo.GetOr("") + "-re"));
    var id1, id2 := m1.id + "-re", m2.id + "-re";
    assert id1[..|m1.id|] == m1.id && id2[..|m2.id|] == m2.id;
    AnswerCreates(Empty, m1, 0, env, g, id1);
    var db1 := AddMessage(Empty, Some(id1), g, Some("reply"), None, None, who.defaultName, now).0;
    assert db1.messages == [NewRow(Some(id1), g, Some("reply"), None, now)];
    assert db1.links.Keys == {id1};
    AnswerCreates(db1, m2, 0, env, g, id2);
    var db2 := AddMessage(db1, Some(id2), g, Some("reply"), None, None, who.defaultName, now).0;
    ReplyTwice(Empty, m1, m2, env, db1, db2);
  }

  lemma ReplyTwice(db: Db, m1: Message, m2: Message, env: ReplyEnv, db1: Db, db2: Db)
    requires !env.countSent
    requires Answer(db, Some(m1), 0, env) == Answered(db1, 1) && Answer(db1, Some(m2), 0, env) == Answered(db2, 1)
    ensures ReplyFrom(db, [Some(m1), Some(m2)], 0, env).1 == Ok(2)
  {
    var cands := [Some(m1), Some(m2)];
    assert cands[1..] == [Some(m2)] && [Some(m2)][1..] == [];
    ReplyFromAnswered(db, cands, 0, env, 0, Answered(db1, 1));
    ReplyFromAnswered(db1, [Some(m2)], 0, env, 1, Answered(db2, 1));
    assert ReplyFrom(db2, [], 0, env) == (db2, Ok(0));
    assert Resumed(ReplyFrom(db, cands, 0, env), 0) == (db2, Ok(2));
  }

  // ------------------------------------------------------------- engaging

  const SearchPeriodHours: int := 24
  const TestingRounds: nat := 3

  /** Iterating a configured value: a list yields its items as printed, a
      string its characters, a dictionary its keys (here in string order);
      anything else raises. */
  function Items(v: Json): (r: Result<seq<string>>)
    ensures v.JArr? ==> r.Ok? && |r.value| == |v.items| &&
                        forall i :: 0 <= i < |v.items| && v.items[i].JStr? ==> r.value[i] == v.items[i].s
    ensures v.JStr? ==> r.Ok? && |r.value| == |v.s| && forall i :: 0 <= i < |v.s| ==> r.value[i] == [v.s[i]]
    ensures v.JObj? ==> r.Ok? && |r.value| == |v.fields.Keys| && forall k :: k in v.fields <==> k in r.value
    ensures r.Err? <==> !v.JArr? && !v.JStr? && !v.JObj?
  {
    match v
    case JArr(items) => Ok(Sorting.MapSeq(JFormat, items))
    case JStr(s) => Ok(seq(|s|, i requires 0 <= i < |s| => [s[i]]))
    case JObj(fields) => Ok(KeyList(fields.Keys))
    case _ => Err(TypeError)
  }

  /** The messages of a list that holds no None. */
  function Present(found: seq<Option<Message>>): (ms: seq<Message>)
    requires forall k :: 0 <= k < |found| ==> found[k].Some?
    ensures |ms| == |found| && forall k :: 0 <= k < |found| ==> found[k] == Some(ms[k])
    ensures forall m :: m in ms ==> Some(m) in found
  {
    seq(|found|, k requires 0 <= k < |found| => found[k].value)
  }

  /** The last twenty of `ms`, in order. */
  function LastTwenty(ms: seq<Message>): (r: seq<Message>)
    ensures |r| <= 20 && |r| <= |ms| && r == ms[|ms| - |r|..]
    ensures |ms| <= 20 ==> r == ms
  {
    if |ms| <= 20 then ms else ms[|ms| - 20..]
  }

  /** The character's twitter messages, newest first. */
  function EngagedQuery(who: Identity): Query {
    AllMessages.(platform := Some(Platform), character := who.name, excludeOwnConversations := true,
                 sortBy := Some(WenPosted), sortOrder := "desc")
  }

  /** The character's own twitter messages, flagged or not, oldest first. */
  function PreviousQuery(who: Identity): Query {
    AllMessages.(platform := Some(Platform), author := who.own, sortBy := Some(WenPosted), flagged := 2)
  }

  /** The choice of a tweet among candidates: the chosen id, or None when
      both models fail. */
  type Decider = seq<Message> -> Option<string>
  /** The response generator, given the chosen tweet and the character's
      previous messages; it may raise. */
  type ResponseGenerator = (Option<Message>, seq<Message>) -> Result<Option<GeneratedMessage>>

  /** What the engagement rounds hold fixed. `frequency` is the search
      frequency in hours, `queries` the configured search queries, and
      `freshId` the random tweet id a testing round stores its reply under. */
  datatype EngageEnv = EngageEnv(who: Identity, testing: bool, now: int, frequency: int, queries: Json,
                                 search: Searcher, decide: Decider, generate: ResponseGenerator,
                                 publish: Publisher, freshId: nat -> string)

  function StoreCtx(env: EngageEnv): Ctx {
    Ctx(env.who.own, env.testing, env.who.defaultName, env.now)
  }

  /** Round `i` searches the `SearchPeriodHours` hours that end `i`
      frequencies and 23 seconds before now. */
  function StartTime(env: EngageEnv, i: nat): int {
    env.now - (env.frequency * i + SearchPeriodHours) * 3600
  }

  function EndTime(env: EngageEnv, i: nat): int {
    env.now - env.frequency * i * 3600 - 23
  }

  predicate InWindow(req: SearchRequest, env: EngageEnv, i: nat) {
    req.startTime == Some(StartTime(env, i)) && req.endTime == Some(EndTime(env, i)) && req.sinceId.None?
  }

  /** The searches of one round, each stored with the tweets the character
      has answered left out; what they return, in query order. */
  function SearchAll(db: Db, queries: seq<string>, start: int, end: int, search: Searcher, ctx: Ctx)
    : (out: (Db, Result<seq<Option<Message>>>, seq<SearchRequest>))
    ensures out.0.settings == db.settings && out.0.social == db.social
    ensures Extends(db.messages, out.0.messages, ctx.testing)
    ensures |out.2| <= |queries|
    ensures forall k :: 0 <= k < |out.2| ==> out.2[k] == SearchRequest(queries[k], None, Some(start), Some(end))
    ensures out.1.Ok? ==> |out.2| == |queries|
    decreases |queries|
  {
    if queries == [] then (db, Ok([]), [])
    else
      var req := SearchRequest(queries[0], None, Some(start), Some(end));
      var one := SaveTweets(db, search(req), CompareObject, true, ctx);
      if one.1.Err? then (one.0, Err(one.1.error), [req])
      else
        var rest := SearchAll(one.0, queries[1..], start, end, search, ctx);
        ExtendsTrans(db.messages, one.0.messages, rest.0.messages, ctx.testing);
        var reqs := [req] + rest.2;
        assert reqs[0] == req;
        assert forall k :: 0 < k < |reqs| ==> reqs[k] == rest.2[k - 1] && queries[1..][k - 1] == queries[k];
        (rest.0, if rest.1.Err? then rest.1 else Ok(one.1.value + rest.1.value), reqs)
  }

  /** The reply a round stores: published under the new tweet's id, or in
      testing mode stored under a random id without publishing. It answers
      the chosen tweet and is flagged exactly in testing mode; the character
      needs a username for it to be built. */
  function StoreEngagement(db: Db, chosen: Message, g: GeneratedMessage, i: nat, env: EngageEnv)
    : (out: (Db, Result<()>))
    ensures out.0.settings == db.settings && out.0.social == db.social
    ensures Extends(db.messages, out.0.messages, env.testing)
    ensures out.1.Err? ==> out.0 == db
    ensures env.who.own.None? ==> out.1.Err?
    ensures EngagementId(chosen, g, i, env).Err? ==> out.1.Err?
    ensures out.1.Ok? ==>
              var key := IdKey(EngagementId(chosen, g, i, env).value);
              key in Ids(out.0.messages) &&
              (key !in Ids(db.messages) ==>
                 |out.0.messages| == |db.messages| + 1 &&
                 var row := out.0.messages[|db.messages|];
                 row.id == key && row.content == g.content && row.author == env.who.own.value &&
                 row.conversationId == (if chosen.id != "" then Some(chosen.id) else Some(key)) &&
                 row.responseTo == Some(chosen.id) &&
                 row.messageType == None && row.flagged == Some(env.testing) && row.wenPosted == env.now)
  {
    var id := EngagementId(chosen, g, i, env);
    if id.Err? then (db, Err(id.error))
    else if env.who.own.None? then (db, Err(ValidationError))
    else
      var msg := GeneratedMessage(Some(chosen.id), g.content, Platform, env.who.own.value, None, Some(chosen.id),
                                  Some(env.testing), None);
      var key := IdKey(id.value);
      var (db1, stored) := AddMessage(db, Some(key), msg, None, None, None, env.who.defaultName, env.now);
      var row := NewRow(Some(key), msg, None, None, env.now);
      assert row.id == key && row.flagged == Some(env.testing);
      assert row.conversationId == if chosen.id != "" then Some(chosen.id) else Some(key);
      ExtendsRefl(db.messages, env.testing);
      ExtendsOne(db.messages, row, env.testing);
      assert stored.Ok? && key !in Ids(db.messages) ==> db1.messages == db.messages + [row];
      (db1, if stored.Err? then Err(stored.error) else Ok(()))
  }

  /** The id an engagement reply is stored under: a random one in testing
      mode, otherwise what publishing the reply returned. */
  function EngagementId(chosen: Message, g: GeneratedMessage, i: nat, env: EngageEnv): Result<Option<string>> {
    if env.testing then Ok(Some(env.freshId(i))) else PublishMessage(Some(g), None, Some(chosen.id), env.publish)
  }

  /** Outside testing, a reply whose publishing failed with a response is
      still stored, under "None". */
  lemma EngagementRefusedStoredAsNone(db: Db, chosen: Message, g: GeneratedMessage, i: nat, env: EngageEnv)
    requires !env.testing && env.publish(RequestOf(g, None, Some(chosen.id))) == Refused(true)
    requires StoreEngagement(db, chosen, g, i, env).1.Ok?
    ensures "None" in Ids(StoreEngagement(db, chosen, g, i, env).0.messages)
  {
    assert EngagementId(chosen, g, i, env) == Ok(None);
  }

  /** The choice among what the searches found: every entry must be a
      message, since each is printed for the prompt. */
  function Choose(found: seq<Option<Message>>, decide: Decider): (r: Result<Option<Message>>)
    ensures r.Err? <==> exists k :: 0 <= k < |found| && found[k].None?
    ensures r.Ok? && r.value.Some? ==> Some(r.value.value) in found
  {
    if exists k :: 0 <= k < |found| && found[k].None? then Err(AttributeError)
    else
      var tweets := Present(found);
      var decision := decide(tweets);
      if decision.None? then Ok(None)
      else
        Ok(SelectById(tweets, decision.value))
  }

  /** One round of `engage`. */
  function Round(db: Db, i: nat, env: EngageEnv): (out: (Db, Result<()>, seq<SearchRequest>))
    ensures out.0.settings == db.settings && out.0.social == db.social
    ensures Extends(db.messages, out.0.messages, env.testing)
    ensures forall req :: req in out.2 ==> InWindow(req, env, i)
  {
    var queries := Items(env.queries);
    if queries.Err? then (db, Err(queries.error), [])
    else
      var (db1, found, reqs) := SearchAll(db, queries.value, StartTime(env, i), EndTime(env, i), env.search, StoreCtx(env));
      if found.Err? then (db1, Err(found.error), reqs)
      else if found.value == [] then (db1, Ok(()), reqs)
      else
        var chosen := Choose(found.value, env.decide);
        if chosen.Err? then (db1, Err(chosen.error), reqs)
        else if env.testing && chosen.value.None? then (db1, Err(AttributeError), reqs)
        else
          var g := env.generate(chosen.value, LastTwenty(GetMessages(db1, PreviousQuery(env.who))));
          if g.Err? then (db1, Err(g.error), reqs)
          else if g.value.None? then (db1, Ok(()), reqs)
          else if chosen.value.None? then (db1, Err(AttributeError), reqs)
          else
            var (db2, r) := StoreEngagement(db1, chosen.value.value, g.value.value, i, env);
            ExtendsTrans(db.messages, db1.messages, db2.messages, env.testing);
            (db2, r, reqs)
  }

  /** Rounds `i` up to `rounds`, stopping at the first that raises. */
  function Rounds(db: Db, i: nat, rounds: nat, env: EngageEnv): (out: (Db, Result<()>, seq<SearchRequest>))
    ensures out.0.settings == db.settings && out.0.social == db.social
    ensures Extends(db.messages, out.0.messages, env.testing)
    ensures forall req :: req in out.2 ==> exists k :: i <= k < rounds && InWindow(req, env, k)
    decreases rounds - i
  {
    if i >= rounds then
      ExtendsRefl(db.messages, env.testing);
      (db, Ok(()), [])
    else
      var first := Round(db, i, env);
      if first.1.Err? then first
      else
        var rest := Rounds(first.0, i + 1, rounds, env);
        ExtendsTrans(db.messages, first.0.messages, rest.0.messages, env.testing);
        (rest.0, rest.1, first.2 + rest.2)
  }

  /** The keyword parameters of the character's `generate_response`. */
  const ResponseParameters: set<string> := {"message", "platform", "time_of_day", "conversation"}

  /** The keywords `engage` passes to it, as written. */
  const EngageArguments: set<string> := {"message", "use_filtering_rules", "platform", "previous_messages"}

  /** The keywords that pass the tweet and the earlier messages as its
      conversation. */
  const EngageArgumentsFixed: set<string> := {"message", "platform", "conversation"}

  /** A call naming a keyword the callee does not declare raises TypeError
      before the callee runs. */
  function KeywordCall(parameters: set<string>, arguments: set<string>): (r: Result<()>)
    ensures r.Ok? <==> forall a :: a in arguments ==> a in parameters
    ensures r.Err? ==> r.error == TypeError
  {
    if arguments <= parameters then Ok(()) else Err(TypeError)
  }

  /** As written, `engage`'s call to the response generator raises. */
  lemma EngageCallRejected()
    ensures KeywordCall(ResponseParameters, EngageArguments) == Err(TypeError)
  {
    assert "use_filtering_rules" in EngageArguments && "use_filtering_rules" !in ResponseParameters;
  }

  /** Passing the earlier messages as the conversation is accepted, which is
      the call `Twitter.Round` models with its generator. */
  lemma EngageCallFixed()
    ensures KeywordCall(ResponseParameters, EngageArgumentsFixed) == Ok(())
  {
  }

  /** `engage`: nothing while engagement is disabled outside testing mode,
      nor while the character's latest twitter message is less than the
      search frequency old; otherwise one round, or `TestingRounds` in
      testing mode. The result also lists the searches made. */
  function EngageOnce(db: Db, who: Identity, testing: bool, platformSettings: Json, now: int, search: Searcher,
                  decide: Decider, generate: ResponseGenerator, publish: Publisher, freshId: nat -> string)
    : (out: (Db, Result<()>, seq<SearchRequest>))
    ensures out.0.settings == db.settings && out.0.social == db.social
    ensures Extends(db.messages, out.0.messages, testing)
  {
    ExtendsRefl(db.messages, testing);
    var enabled := Lookup(platformSettings, [Platform, "engage", "enabled"], JBool(false));
    if enabled.Err? then (db, Err(enabled.error), [])
    else if !JTruthy(enabled.value) && !testing then (db, Ok(()), [])
    else
      // the settings were read as a dictionary, so the other lookups succeed
      EngageLookups(platformSettings);
      var frequency := Lookup(platformSettings, [Platform, "engage", "search_frequency"], JNum(1));
      var f := JInt(frequency.value);
      if f.Err? then (db, Err(f.error), [])
      else
        var latest := GetMessages(db, EngagedQuery(who));
        if latest != [] && now <= latest[0].wenPosted + f.value * 3600 && !testing then (db, Ok(()), [])
        else
          var queries := Lookup(platformSettings, [Platform, "engage", "search_queries"], JArr([]));
          Rounds(db, 0, if testing then TestingRounds else 1,
                 EngageEnv(who, testing, now, f.value, queries.value, search, decide, generate, publish, freshId))
  }

  /** The engagement settings are read from one dictionary. */
  lemma EngageLookups(platformSettings: Json)
    requires Lookup(platformSettings, [Platform, "engage", "enabled"], JBool(false)).Ok?
    ensures Lookup(platformSettings, [Platform, "engage", "search_frequency"], JNum(1)).Ok?
    ensures Lookup(platformSettings, [Platform, "engage", "search_queries"], JArr([])).Ok?
  {
    var path := [Platform, "engage"];
    assert path + ["enabled"] == [Platform, "engage", "enabled"];
    assert path + ["search_frequency"] == [Platform, "engage", "search_frequency"];
    assert path + ["search_queries"] == [Platform, "engage", "search_queries"];
    LookupSibling(platformSettings, path, "enabled", "search_frequency", JBool(false), JNum(1));
    LookupSibling(platformSettings, path, "enabled", "search_queries", JBool(false), JArr([]));
  }

  /** Outside testing mode, disabled engagement does nothing. */
  lemma EngageDisabled(db: Db, who: Identity, platformSettings: Json, now: int, search: Searcher, decide: Decider,
                       generate: ResponseGenerator, publish: Publisher, freshId: nat -> string)
    requires Lookup(platformSettings, [Platform, "engage", "enabled"], JBool(false)).Ok?
    requires !JTruthy(Lookup(platformSettings, [Platform, "engage", "enabled"], JBool(false)).value)
    ensures EngageOnce(db, who, false, platformSettings, now, search, decide, generate, publish, freshId) == (db, Ok(()), [])
  {
  }

  /** Outside testing mode, engagement waits the search frequency after any
      twitter message of the character: while one is that recent, nothing
      is searched or stored. */
  lemma EngageWaits(db: Db, who: Identity, platformSettings: Json, now: int, search: Searcher, decide: Decider,
                    generate: ResponseGenerator, publish: Publisher, freshId: nat -> string, m: Message)
    requires Lookup(platformSettings, [Platform, "engage", "search_frequency"], JNum(1)).Ok?
    requires JInt(Lookup(platformSettings, [Platform, "engage", "search_frequency"], JNum(1)).value).Ok?
    requires m in db.messages && Matches(EngagedQuery(who), db.links, m)
    requires now <= m.wenPosted +
                    JInt(Lookup(platformSettings, [Platform, "engage", "search_frequency"], JNum(1)).value).value * 3600
    ensures var out := EngageOnce(db, who, false, platformSettings, now, search, decide, generate, publish, freshId);
            out.0 == db && out.2 == []
  {
    var latest := GetMessages(db, EngagedQuery(who));
    assert m in latest;
    var k :| 0 <= k < |latest| && latest[k] == m;
    assert latest[0].wenPosted >= m.wenPosted;
  }

  /** Outside testing mode there is one round, and every search covers the
      day that ends 23 seconds before now. */
  lemma EngageSearchesLastDay(db: Db, who: Identity, platformSettings: Json, now: int, search: Searcher,
                              decide: Decider, generate: ResponseGenerator, publish: Publisher, freshId: nat -> string)
    ensures var out := EngageOnce(db, who, false, platformSettings, now, search, decide, generate, publish, freshId);
            forall req :: req in out.2 ==>
              req.startTime == Some(now - SearchPeriodHours * 3600) && req.endTime == Some(now - 23)
  {
    var out := EngageOnce(db, who, false, platformSettings, now, search, decide, generate, publish, freshId);
    var frequency := Lookup(platformSettings, [Platform, "engage", "search_frequency"], JNum(1));
    var queries := Lookup(platformSettings, [Platform, "engage", "search_queries"], JArr([]));
    if out.2 != [] {
      var env := EngageEnv(who, false, now, JInt(frequency.value).value, queries.value, search, decide, generate,
                           publish, freshId);
      assert out == Rounds(db, 0, 1, env);
      assert StartTime(env, 0) == now - SearchPeriodHours * 3600 && EndTime(env, 0) == now - 23;
    }
  }

  /** A round in testing mode never publishes: it is the same whatever the
      platform would do. */
  lemma RoundOffline(db: Db, i: nat, env: EngageEnv, publish: Publisher)
    requires env.testing
    ensures Round(db, i, env) == Round(db, i, env.(publish := publish))
  {
    var env2 := env.(publish := publish);
    assert StoreCtx(env2) == StoreCtx(env) && StartTime(env2, i) == StartTime(env, i) && EndTime(env2, i) == EndTime(env, i);
    var queries := Items(env.queries);
    if queries.Ok? {
      var (db1, found, reqs) := SearchAll(db, queries.value, StartTime(env, i), EndTime(env, i), env.search, StoreCtx(env));
      if found.Ok? && found.value != [] {
        var chosen := Choose(found.value, env.decide);
        if chosen.Ok? && chosen.value.Some? {
          var g := env.generate(chosen.value, LastTwenty(GetMessages(db1, PreviousQuery(env.who))));
          if g.Ok? && g.value.Some? {
            StoreEngagementOffline(db1, chosen.value.value, g.value.value, i, env, publish);
          }
        }
      }
    }
  }

  /** In a test run the publisher is never called. */
  lemma StoreEngagementOffline(db: Db, chosen: Message, g: GeneratedMessage, i: nat, env: EngageEnv, publish: Publisher)
    requires env.testing
    ensures StoreEngagement(db, chosen, g, i, env) == StoreEngagement(db, chosen, g, i, env.(publish := publish))
  {
  }


  lemma {:induction false} RoundsOffline(db: Db, i: nat, rounds: nat, env: EngageEnv, publish: Publisher)
    requires env.testing
    ensures Rounds(db, i, rounds, env) == Rounds(db, i, rounds, env.(publish := publish))
    decreases rounds - i
  {
    if i < rounds {
      RoundOffline(db, i, env, publish);
      RoundsOffline(Round(db, i, env).0, i + 1, rounds, env, publish);
    }
  }

  /** In testing mode engagement publishes nothing, and whatever it stores
      is flagged. */
  lemma EngageTestingOffline(db: Db, who: Identity, platformSettings: Json, now: int, search: Searcher,
                             decide: Decider, generate: ResponseGenerator, publish: Publisher, publish2: Publisher,
                             freshId: nat -> string)
    ensures EngageOnce(db, who, true, platformSettings, now, search, decide, generate, publish, freshId) ==
            EngageOnce(db, who, true, platformSettings, now, search, decide, generate, publish2, freshId)
  {
    var frequency := Lookup(platformSettings, [Platform, "engage", "search_frequency"], JNum(1));
    var queries := Lookup(platformSettings, [Platform, "engage", "search_queries"], JArr([]));
    if frequency.Ok? && JInt(frequency.value).Ok? && queries.Ok? {
      var env := EngageEnv(who, true, now, JInt(frequency.value).value, queries.value, search, decide, generate,
                           publish, freshId);
      RoundsOffline(db, 0, TestingRounds, env, publish2);
    }
  }

  // ------------------------------------------------------ loop steps

  /** The rest of the reply loop, after `created` replies so far. */
  function Resumed(rest: (Db, Result<nat>), created: nat): (Db, Result<nat>) {
    (rest.0, Plus(rest.1, created))
  }

  /** Resuming with nothing created so far changes nothing. */
  lemma ResumedNone(rest: (Db, Result<nat>))
    ensures Resumed(rest, 0) == rest
  {
    if rest.1.Ok? {
      assert Plus(rest.1, 0) == Ok(rest.1.value);
    }
  }

  /** A mention answered by the reply loop as written: the rest of the loop
      runs on the new tables with the same hourly count. */
  lemma ReplyFromAnswered(db: Db, cands: seq<Option<Message>>, sent: int, env: ReplyEnv, created: nat, step: ReplyStep)
    requires cands != [] && !env.countSent
    requires step == Answer(db, cands[0], sent, env) && step.Answered?
    ensures Resumed(ReplyFrom(db, cands, sent, env), created) ==
              Resumed(ReplyFrom(step.db, cands[1..], sent, env), created + step.created)
  {
    var tail := ReplyFrom(step.db, cands[1..], sent, env);
    assert SentAfter(sent, step.created, env.countSent) == sent;
    assert ReplyFrom(db, cands, sent, env) == (tail.0, Plus(tail.1, step.created));
    PlusPlus(tail.1, step.created, created);
  }

  /** Counts carried in two steps are carried at once. */
  lemma PlusPlus(r: Result<nat>, a: nat, b: nat)
    ensures Plus(Plus(r, a), b) == Plus(r, a + b)
  {
  }

  /** A pass that answers nothing leaves the tables as they were: it fails,
      stops at the cap, or goes on with the next mention. */
  lemma ReplyFromPassed(db: Db, cands: seq<Option<Message>>, sent: int, env: ReplyEnv, created: nat)
    requires cands != []
    requires !Answer(db, cands[0], sent, env).Answered?
    ensures var whole := Resumed(ReplyFrom(db, cands, sent, env), created);
            var step := Answer(db, cands[0], sent, env);
            (step.Failed? ==> whole == (db, Err(step.error))) &&
            (step.Halt? ==> whole == (db, Ok(created))) &&
            (step.Skip? ==> whole == Resumed(ReplyFrom(db, cands[1..], sent, env), created))
  {
  }

  /** A mention answered, seen from a loop that has created `created`
      replies so far: the loop goes on from the new tables with one more
      count. */
  lemma ReplyLoopAnswered(before: Db, cands: seq<Option<Message>>, i: nat, sent: int, env: ReplyEnv,
                          created: nat, step: ReplyStep)
    requires i < |cands| && !env.countSent
    requires step == Answer(before, cands[i], sent, env) && step.Answered?
    ensures Resumed(ReplyFrom(before, cands[i..], sent, env), created) ==
              Resumed(ReplyFrom(step.db, cands[i + 1..], sent, env), created + step.created)
  {
    var cs := cands[i..];
    assert cs[1..] == cands[i + 1..] && cs[0] == cands[i];
    ReplyFromAnswered(before, cs, sent, env, created, step);
  }

  /** A mention passed over, seen from a loop that has created `created`
      replies so far. */
  lemma ReplyLoopPassed(before: Db, cands: seq<Option<Message>>, i: nat, sent: int, env: ReplyEnv,
                        created: nat, step: ReplyStep)
    requires i < |cands|
    requires step == Answer(before, cands[i], sent, env) && !step.Answered?
    ensures var whole := Resumed(ReplyFrom(before, cands[i..], sent, env), created);
            (step.Failed? ==> whole == (before, Err(step.error))) &&
            (step.Halt? ==> whole == (before, Ok(created))) &&
            (step.Skip? ==> whole == Resumed(ReplyFrom(before, cands[i + 1..], sent, env), created))
  {
    assert cands[i..][1..] == cands[i + 1..] && cands[i..][0] == cands[i];
    ReplyFromPassed(before, cands[i..], sent, env, created);
  }

  /** Where the reply loop stops after a pass, if it does. */
  function StopOf(step: ReplyStep, created: nat): (stop: Option<Result<nat>>)
    ensures stop.None? <==> step.Skip? || step.Answered?
  {
    match step
    case Failed(e) => Some(Err(e))
    case Halt => Some(Ok(created))
    case _ => None
  }

  /** The replies created so far after a pass. */
  function CountAfter(step: ReplyStep, created: nat): (n: nat)
    ensures n == created + if step.Answered? then step.created else 0
  {
    if step.Answered? then created + step.created else created
  }

  /** One pass of the reply loop as written, seen from a loop that has
      created `created` replies so far and whose tables go from `before`
      to `after`: it stops there, or goes on with the next candidate. */
  lemma ReplyLoopStep(before: Db, after: Db, cands: seq<Option<Message>>, i: nat, sent: int, env: ReplyEnv,
                      created: nat, step: ReplyStep)
    requires i < |cands| && !env.countSent
    requires step == Answer(before, cands[i], sent, env)
    requires after == if step.Answered? then step.db else before
    ensures var stop := StopOf(step, created);
            (stop.Some? ==> Resumed(ReplyFrom(before, cands[i..], sent, env), created) == (after, stop.value)) &&
            (stop.None? ==> Resumed(ReplyFrom(before, cands[i..], sent, env), created) ==
                              Resumed(ReplyFrom(after, cands[i + 1..], sent, env), CountAfter(step, created)))
  {
    if step.Answered? {
      ReplyLoopAnswered(before, cands, i, sent, env, created, step);
      assert after == step.db && StopOf(step, created).None?;
      assert CountAfter(step, created) == created + step.created;
    } else {
      ReplyLoopPassed(before, cands, i, sent, env, created, step);
      if step.Failed? {
        assert StopOf(step, created) == Some(Err(step.error));
      } else if step.Halt? {
        assert StopOf(step, created) == Some(Ok(created));
      } else {
        assert StopOf(step, created).None? && after == before && CountAfter(step, created) == created;
      }
    }
  }

  /** The rest of the searches of a round, after what was saved and
      requested so far. */
  function Joined(saved: seq<Option<Message>>, reqs: seq<SearchRequest>,
                  rest: (Db, Result<seq<Option<Message>>>, seq<SearchRequest>))
    : (Db, Result<seq<Option<Message>>>, seq<SearchRequest>)
  {
    (rest.0, if rest.1.Err? then rest.1 else Ok(saved + rest.1.value), reqs + rest.2)
  }

  lemma SearchAllStep(db: Db, qs: seq<string>, start: int, end: int, search: Searcher, ctx: Ctx,
                      saved: seq<Option<Message>>, reqs: seq<SearchRequest>)
    requires qs != []
    ensures var req := SearchRequest(qs[0], None, Some(start), Some(end));
            var one := SaveTweets(db, search(req), CompareObject, true, ctx);
            Joined(saved, reqs, SearchAll(db, qs, start, end, search, ctx)) ==
              if one.1.Err? then (one.0, Err(one.1.error), reqs + [req])
              else Joined(saved + one.1.value, reqs + [req], SearchAll(one.0, qs[1..], start, end, search, ctx))
  {
    var req := SearchRequest(qs[0], None, Some(start), Some(end));
    var one := SaveTweets(db, search(req), CompareObject, true, ctx);
    if one.1.Ok? {
      var rest := SearchAll(one.0, qs[1..], start, end, search, ctx);
      var whole := SearchAll(db, qs, start, end, search, ctx);
      assert whole.0 == rest.0 && whole.2 == [req] + rest.2;
      assert whole.1 == if rest.1.Err? then rest.1 else Ok(one.1.value + rest.1.value);
      Concat3(reqs, [req], rest.2);
      if rest.1.Ok? {
        Concat3(saved, one.1.value, rest.1.value);
      }
    } else {
      assert SearchAll(db, qs, start, end, search, ctx) == (one.0, Err(one.1.error), [req]);
    }
  }

  /** The rest of the rounds, after the searches made so far. */
  function Continued(searches: seq<SearchRequest>, rest: (Db, Result<()>, seq<SearchRequest>))
    : (Db, Result<()>, seq<SearchRequest>)
  {
    (rest.0, rest.1, searches + rest.2)
  }

  lemma RoundsStep(db: Db, i: nat, rounds: nat, env: EngageEnv, searches: seq<SearchRequest>)
    requires i < rounds
    ensures var first := Round(db, i, env);
            Continued(searches, Rounds(db, i, rounds, env)) ==
              if first.1.Err? then (first.0, first.1, searches + first.2)
              else Continued(searches + first.2, Rounds(first.0, i + 1, rounds, env))
  {
    var first := Round(db, i, env);
    var whole := Rounds(db, i, rounds, env);
    if first.1.Err? {
      assert whole == first;
    } else {
      var rest := Rounds(first.0, i + 1, rounds, env);
      assert whole == (rest.0, rest.1, first.2 + rest.2);
      Concat3(searches, first.2, rest.2);
    }
  }

  // -------------------------------------------------------------- client

  class SiaTwitter {
    const memory: Memory.SiaMemory
    const character: Character.SiaCharacter
    const testing: bool

    constructor (memory: Memory.SiaMemory, character: Character.SiaCharacter, testing: bool)
      ensures this.memory == memory && this.character == character && this.testing == testing
    {
      this.memory := memory;
      this.character := character;
      this.testing := testing;
    }

    /** The character as the tables and the platform know it. */
    function Who(): Identity {
      Identity(memory.characterNameId, character.name, character.twitterUsername, memory.characterName)
    }

    /** What every store of a tweet at `now` shares. */
    function StoreContext(now: int): Ctx {
      Ctx(character.twitterUsername, testing, memory.characterName, now)
    }

    /** `save_tweet_to_db`. */
    method SaveTweetToDb(t: Tweet, author: Option<TwUser>, messageType: string, now: int) returns (r: Option<Message>)
      modifies memory
      ensures (memory.Tables(), r) == SaveTweet(old(memory.Tables()), t, author, messageType, StoreContext(now))
    {
      var key := IntToDecimal(t.id);
      var existing := GetMessages(memory.Tables(), AllMessages.(id := Some(key), flagged := 2));
      if existing != [] {
        return Some(existing[0]);
      }
      if author.None? {
        return None;
      }
      var stored := memory.AddMessage(Some(key), ToStore(t, author.value, testing), Some(messageType), None, None, now);
      if stored.Err? {
        return None;
      }
      return Some(stored.value);
    }

    /** `save_tweets_to_db`; `excludeOwn` and `excludeResponded` are its two
        flags. */
    method SaveTweetsToDb(resp: SearchResponse, excludeOwn: bool, excludeResponded: bool, now: int)
      returns (r: Result<seq<Option<Message>>>)
      modifies memory
      ensures (memory.Tables(), r) ==
                SaveTweets(old(memory.Tables()), resp, if excludeOwn then CompareObject else KeepAll, excludeResponded,
                           StoreContext(now))
    {
      if resp.data == [] {
        return Ok([]);
      }
      if resp.users.None? {
        return Err(KeyError);
      }
      var rule := if excludeOwn then CompareObject else KeepAll;
      var users := resp.users.value;
      var included := resp.included.GetOr([]);
      ghost var db0 := memory.Tables();
      var out: seq<Option<Message>> := [];
      var i := 0;
      while i < |resp.data|
        invariant 0 <= i <= |resp.data|
        invariant SaveFrom(memory.Tables(), out, resp.data[i..], users, included, rule, excludeResponded, StoreContext(now)) ==
                  SaveFrom(db0, [], resp.data, users, included, rule, excludeResponded, StoreContext(now))
      {
        out := SaveOne(resp.data[i], out, users, included, rule, excludeResponded, now);
        assert resp.data[i..][1..] == resp.data[i + 1..];
        i := i + 1;
      }
      return Ok(out);
    }

    /** The body of the loop of `save_tweets_to_db` for one tweet. */
    method SaveOne(t: Tweet, out: seq<Option<Message>>, users: seq<TwUser>, included: seq<Tweet>, rule: OwnRule,
                   excludeResponded: bool, now: int) returns (out': seq<Option<Message>>)
      modifies memory
      ensures (memory.Tables(), out') ==
                SaveStep(old(memory.Tables()), out, t, users, included, rule, excludeResponded, StoreContext(now))
    {
      var author := GetUserById(users, t.authorId);
      if Excluded(rule, author, character.twitterUsername) {
        return out;
      }
      var saved := SaveTweetToDb(t, author, "reply", now);
      if excludeResponded && Responded(memory.Tables(), t, character.twitterUsername) {
        return out;
      }
      out' := if saved.Some? then out + [saved] else out;
      ghost var db1 := memory.Tables();
      ghost var out1 := out';
      var j := 0;
      while j < |t.referenced|
        invariant 0 <= j <= |t.referenced|
        invariant SaveRefs(memory.Tables(), out', t.referenced[j..], included, users, StoreContext(now)) ==
                  SaveRefs(db1, out1, t.referenced, included, users, StoreContext(now))
      {
        ghost var dbj := memory.Tables();
        ghost var outj := out';
        var ref := t.referenced[j];
        var k := 0;
        while k < |included|
          invariant 0 <= k <= |included|
          invariant SaveIncluded(memory.Tables(), out', ref, included[k..], users, StoreContext(now)) ==
                    SaveIncluded(dbj, outj, ref, included, users, StoreContext(now))
        {
          if included[k].id == ref {
            var s := SaveTweetToDb(included[k], GetUserById(users, included[k].authorId), "reply", now);
            out' := out' + [s];
          }
          assert included[k..][1..] == included[k + 1..];
          k := k + 1;
        }
        assert t.referenced[j..][1..] == t.referenced[j + 1..];
        j := j + 1;
      }
    }

    /** `post`: the settings row says when the next post is due. */
    method Post(now: int, freshId: string, generate: PostGenerator, publish: Publisher) returns (r: Result<()>)
      modifies memory
      ensures (memory.Tables(), r) ==
                PostOnce(old(memory.Tables()), Who(), freshId, character.platformSettings, now, generate, publish)
    {
      var row := memory.GetCharacterSettings(freshId);
      if row.Err? {
        return Err(row.error);
      }
      var next := NextPostTime(row.value.bag);
      if next.Err? {
        return Err(next.error);
      }
      var enabled := Lookup(character.platformSettings, [Platform, "post", "enabled"], JBool(false));
      if enabled.Err? {
        return Err(enabled.error);
      }
      if !(JTruthy(enabled.value) && now > next.value) {
        return Ok(());
      }
      var (post, media) := generate(character.twitterUsername);
      if post.None? && (media.None? || media.value == []) {
        return Ok(());
      }
      if post.None? {
        return Err(AttributeError);
      }
      var id := PublishMessage(post, media, None, publish);
      if id.Err? {
        return Err(id.error);
      }
      if !Truthy(id.value) {
        return Ok(());
      }
      var stored := memory.AddMessage(id.value, post.value, Some("post"), None, None, now);
      if stored.Err? {
        return Err(stored.error);
      }
      PostLookups(character.platformSettings);
      var frequency := Lookup(character.platformSettings, [Platform, "post_frequency"], JNum(2));
      var f := JInt(frequency.value);
      if f.Err? {
        return Err(f.error);
      }
      r := memory.UpdateCharacterSettings(row.value.(bag := PostedBag(now, f.value)));
    }

    /** `reply`, as written: the hourly count is read once and never
        increased. The result is the number of replies created. */
    method Reply(now: int, randomKey: nat -> int, search: Searcher, respond: Responder, publish: Publisher)
      returns (r: Result<nat>)
      modifies memory
      ensures (memory.Tables(), r) ==
                ReplyOnce(old(memory.Tables()), Who(), testing, character.responding, now, false, randomKey,
                              search, respond, publish)
    {
      var who := Who();
      var enabled := Get(character.responding, "enabled", JBool(true));
      if enabled.Err? {
        return Err(enabled.error);
      }
      if !JTruthy(enabled.value) {
        return Ok(0);
      }
      var since := LastRetrievedReplyId(memory.Tables(), who.own, who.name);
      var resp := search(SearchRequest(MentionsQuery(who.own), if Truthy(since) then since else None, None, None));
      var saved := SaveTweetsToDb(resp, true, false, now);
      if saved.Err? {
        return Err(saved.error);
      }
      var sent := CountRecent(GetMessages(memory.Tables(), SentQuery(who)), now);
      var cap := Get(character.responding, "responses_an_hour", JNum(3)).value;
      if saved.value == [] {
        return Ok(0);
      }
      var cands := Sorting.Shuffle(saved.value, randomKey);
      r := ReplyToAll(cands, sent, ReplyEnv(who, cap, false, now, respond, publish));
    }

    /** The loop of `reply` over the shuffled mentions. */
    method ReplyToAll(cands: seq<Option<Message>>, sent: int, env: ReplyEnv) returns (r: Result<nat>)
      requires env.who == Who() && !env.countSent
      modifies memory
      ensures (memory.Tables(), r) == ReplyFrom(old(memory.Tables()), cands, sent, env)
    {
      ghost var goal := ReplyFrom(memory.Tables(), cands, sent, env);
      var created: nat := 0;
      var i := 0;
      assert cands[i..] == cands;
      ResumedNone(goal);
      while i < |cands|
        invariant 0 <= i <= |cands|
        invariant goal == Resumed(ReplyFrom(memory.Tables(), cands[i..], sent, env), created)
      {
        var stop;
        stop, created := ReplyOne(cands, i, sent, env, created, goal);
        if stop.Some? {
          return stop.value;
        }
        i := i + 1;
      }
      assert cands[i..] == [];
      assert goal == (memory.Tables(), Ok(created));
      return Ok(created);
    }

    /** One pass of the loop of `reply` seen from the loop: either the loop
        stops with a result, or it goes on with the created replies counted. */
    method ReplyOne(cands: seq<Option<Message>>, i: nat, sent: int, env: ReplyEnv, created: nat,
                    ghost goal: (Db, Result<nat>))
      returns (stop: Option<Result<nat>>, created': nat)
      requires i < |cands| && env.who == Who() && !env.countSent
      requires goal == Resumed(ReplyFrom(memory.Tables(), cands[i..], sent, env), created)
      modifies memory
      ensures stop.Some? ==> goal == (memory.Tables(), stop.value)
      ensures stop.None? ==> goal == Resumed(ReplyFrom(memory.Tables(), cands[i + 1..], sent, env), created')
    {
      ghost var before := memory.Tables();
      var step := AnswerMention(cands[i], sent, env);
      ReplyLoopStep(before, memory.Tables(), cands, i, sent, env, created, step);
      return StopOf(step, created), CountAfter(step, created);
    }

    /** One pass of the loop of `reply`; an answered mention's `db` is the
        new state of the tables. */
    method AnswerMention(cand: Option<Message>, sent: int, env: ReplyEnv) returns (step: ReplyStep)
      requires env.who == Who()
      modifies memory
      ensures step == Answer(old(memory.Tables()), cand, sent, env)
      ensures memory.Tables() == if step.Answered? then step.db else old(memory.Tables())
    {
      if cand.None? {
        return Failed(AttributeError);
      }
      var m := cand.value;
      if IsFlagged(m) {
        return Skip;
      }
      var cap := JInt(env.cap);
      if cap.Err? {
        return Failed(cap.error);
      }
      if sent >= cap.value {
        return Halt;
      }
      if OwnInConversation(memory.Tables(), m.conversationId, character.twitterUsername) >= 3 {
        return Skip;
      }
      var g := env.respond(m);
      if g.None? {
        return Skip;
      }
      var id := PublishMessage(g, None, Some(m.id), env.publish);
      if id.Err? {
        return Failed(id.error);
      }
      var stored := memory.AddMessage(id.value, g.value, Some("reply"), None, None, env.now);
      if stored.Err? {
        return Failed(stored.error);
      }
      return Answered(memory.Tables(), if id.value.Some? then 1 else 0);
    }

    /** The engagement settings a round runs with. */
    predicate RunsWith(env: EngageEnv) {
      env.who == Who() && env.testing == testing
    }

    /** `engage`: each round searches every query, picks a tweet and stores
        the generated reply. The result also lists the searches made. */
    method Engage(now: int, search: Searcher, decide: Decider, generate: ResponseGenerator, publish: Publisher,
                  freshId: nat -> string)
      returns (r: Result<()>, searches: seq<SearchRequest>)
      modifies memory
      ensures (memory.Tables(), r, searches) ==
                EngageOnce(old(memory.Tables()), Who(), testing, character.platformSettings, now, search, decide,
                               generate, publish, freshId)
    {
      var settings := character.platformSettings;
      var enabled := Lookup(settings, [Platform, "engage", "enabled"], JBool(false));
      if enabled.Err? {
        return Err(enabled.error), [];
      }
      if !JTruthy(enabled.value) && !testing {
        return Ok(()), [];
      }
      EngageLookups(settings);
      var frequency := Lookup(settings, [Platform, "engage", "search_frequency"], JNum(1));
      var f := JInt(frequency.value);
      if f.Err? {
        return Err(f.error), [];
      }
      var latest := GetMessages(memory.Tables(), EngagedQuery(Who()));
      if latest != [] && now <= latest[0].wenPosted + f.value * 3600 && !testing {
        return Ok(()), [];
      }
      var queries := Lookup(settings, [Platform, "engage", "search_queries"], JArr([]));
      var env := EngageEnv(Who(), testing, now, f.value, queries.value, search, decide, generate, publish, freshId);
      r, searches := RunRounds(if testing then TestingRounds else 1, env);
    }

    /** The rounds of `engage`, stopping at the first that raises. */
    method RunRounds(rounds: nat, env: EngageEnv) returns (r: Result<()>, searches: seq<SearchRequest>)
      requires RunsWith(env)
      modifies memory
      ensures (memory.Tables(), r, searches) == Rounds(old(memory.Tables()), 0, rounds, env)
    {
      ghost var db0 := memory.Tables();
      searches := [];
      ghost var whole := Rounds(db0, 0, rounds, env);
      assert [] + whole.2 == whole.2;
      assert Continued([], whole) == whole;
      var i: nat := 0;
      while i < rounds
        invariant i <= rounds
        invariant Rounds(db0, 0, rounds, env) == Continued(searches, Rounds(memory.Tables(), i, rounds, env))
      {
        RoundsStep(memory.Tables(), i, rounds, env, searches);
        var done, reqs := EngageRound(i, env);
        searches := searches + reqs;
        if done.Err? {
          return done, searches;
        }
        i := i + 1;
      }
      assert searches + [] == searches;
      return Ok(()), searches;
    }

    /** One round of the loop of `engage`. */
    method EngageRound(i: nat, env: EngageEnv) returns (r: Result<()>, reqs: seq<SearchRequest>)
      requires RunsWith(env)
      modifies memory
      ensures (memory.Tables(), r, reqs) == Round(old(memory.Tables()), i, env)
    {
      var queries := Items(env.queries);
      if queries.Err? {
        return Err(queries.error), [];
      }
      var found;
      found, reqs := SearchQueries(queries.value, StartTime(env, i), EndTime(env, i), env);
      if found.Err? {
        return Err(found.error), reqs;
      }
      if found.value == [] {
        return Ok(()), reqs;
      }
      var chosen := Choose(found.value, env.decide);
      if chosen.Err? {
        return Err(chosen.error), reqs;
      }
      if env.testing && chosen.value.None? {
        return Err(AttributeError), reqs;
      }
      var g := env.generate(chosen.value, LastTwenty(GetMessages(memory.Tables(), PreviousQuery(env.who))));
      if g.Err? {
        return Err(g.error), reqs;
      }
      if g.value.None? {
        return Ok(()), reqs;
      }
      if chosen.value.None? {
        return Err(AttributeError), reqs;
      }
      r := StoreReply(chosen.value.value, g.value.value, i, env);
    }

    /** The searches of one round of `engage`, in query order. */
    method SearchQueries(qs: seq<string>, start: int, end: int, env: EngageEnv)
      returns (found: Result<seq<Option<Message>>>, reqs: seq<SearchRequest>)
      requires RunsWith(env)
      modifies memory
      ensures (memory.Tables(), found, reqs) == SearchAll(old(memory.Tables()), qs, start, end, env.search, StoreCtx(env))
    {
      ghost var db0 := memory.Tables();
      var saved: seq<Option<Message>> := [];
      reqs := [];
      ghost var whole := SearchAll(db0, qs, start, end, env.search, StoreCtx(env));
      assert [] + whole.2 == whole.2;
      assert whole.1.Ok? ==> [] + whole.1.value == whole.1.value;
      assert Joined([], [], whole) == whole;
      var k := 0;
      while k < |qs|
        invariant 0 <= k <= |qs|
        invariant SearchAll(db0, qs, start, end, env.search, StoreCtx(env)) ==
                  Joined(saved, reqs, SearchAll(memory.Tables(), qs[k..], start, end, env.search, StoreCtx(env)))
      {
        assert qs[k..][1..] == qs[k + 1..];
        SearchAllStep(memory.Tables(), qs[k..], start, end, env.search, StoreCtx(env), saved, reqs);
        var req := SearchRequest(qs[k], None, Some(start), Some(end));
        var one := SaveTweetsToDb(env.search(req), true, true, env.now);
        reqs := reqs + [req];
        if one.Err? {
          return Err(one.error), reqs;
        }
        saved := saved + one.value;
        k := k + 1;
      }
      assert qs[k..] == [] && saved + [] == saved && reqs + [] == reqs;
      return Ok(saved), reqs;
    }

    /** The reply of round `i` stored, once published unless in testing mode. */
    method StoreReply(chosen: Message, g: GeneratedMessage, i: nat, env: EngageEnv) returns (r: Result<()>)
      requires RunsWith(env)
      modifies memory
      ensures (memory.Tables(), r) == StoreEngagement(old(memory.Tables()), chosen, g, i, env)
    {
      var id := if testing then Ok(Some(env.freshId(i))) else PublishMessage(Some(g), None, Some(chosen.id), env.publish);
      if id.Err? {
        return Err(id.error);
      }
      if character.twitterUsername.None? {
        return Err(ValidationError);
      }
      var msg := GeneratedMessage(Some(chosen.id), g.content, Platform, character.twitterUsername.value, None,
                                  Some(chosen.id), Some(testing), None);
      var stored := memory.AddMessage(Some(IdKey(id.value)), msg, None, None, None, env.now);
      r := if stored.Err? then Err(stored.error) else Ok(());
    }
  }
}
