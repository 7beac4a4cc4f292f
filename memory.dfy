/** `SiaMemory`: the tables of one character's database held as fields, and
    the operations that read and change them in place. Each state-changing
    method is tied to the pure function of module Store or module Social that
    describes it; the properties are proved about those functions. */
module Memory {
  import opened Wrappers
  import opened Records
  import opened Store
  import Social

  class SiaMemory {
    var messages: seq<Message>
    var links: map<string, Link>
    var settings: seq<SettingsRow>
    var social: map<MemoryKey, SocialMemory>

    /** The character the memory serves: its name, its name id, and the
        username it has on each platform whose settings name one. */
    const characterName: string
    const characterNameId: string
    const usernames: map<string, string>
    /** Whether the database enforces foreign keys. */
    const fkEnforced: bool

    /** The tables as one value. */
    function Tables(): Db
      reads this
    {
      Db(messages, links, settings, social)
    }

    /** A fresh database holds no rows. */
    constructor (characterName: string, characterNameId: string, usernames: map<string, string>,
                 fkEnforced: bool)
      ensures Tables() == Empty
      ensures this.characterName == characterName && this.characterNameId == characterNameId
      ensures this.usernames == usernames && this.fkEnforced == fkEnforced
    {
      messages := [];
      links := map[];
      settings := [];
      social := map[];
      this.characterName := characterName;
      this.characterNameId := characterNameId;
      this.usernames := usernames;
      this.fkEnforced := fkEnforced;
    }

    /** The character's username on a platform, its name when none is set. */
    function OwnUsername(platform: string): string {
      if platform in usernames then usernames[platform] else characterName
    }

    method AddMessage(messageId: Option<string>, msg: GeneratedMessage, messageType: Option<string>,
                      originalData: Option<Json>, character: Option<string>, now: int)
      returns (r: Result<Message>)
      modifies this
      ensures (Tables(), r) == Store.AddMessage(old(Tables()), messageId, msg, messageType, originalData,
                                                character, characterName, now)
    {
      var key := IdKey(messageId);
      var name := CharName(character, characterName);
      var existing := SelectById(messages, key);
      if existing.Some? {
        if key in links && links[key].characterName == name {
          return Ok(existing.value);
        }
        if key in links {
          // the link table admits one character per message: the insert is
          // rolled back and the fallback read finds the stored message
          return Ok(existing.value);
        }
        links := links[key := Link(name, existing.value.wenPosted)];
        return Ok(existing.value);
      }
      var row := NewRow(messageId, msg, messageType, originalData, now);
      if key in links {
        // a link left behind by a deleted message: rolled back, nothing to read
        return Err(IntegrityError);
      }
      messages := messages + [row];
      links := links[key := Link(name, row.wenPosted)];
      return Ok(row);
    }

    /** The distinct conversation ids of the messages that do not start
        their own conversation. */
    method GetConversationIds() returns (ids: seq<string>)
      ensures forall c :: c in ids <==> exists m :: m in messages && m.conversationId == Some(c) && m.id != c
      ensures forall i, j :: 0 <= i < j < |ids| ==> ids[i] != ids[j]
    {
      ids := [];
      var i := 0;
      while i < |messages|
        invariant 0 <= i <= |messages|
        invariant forall c :: c in ids <==>
                    exists k :: 0 <= k < i && messages[k].conversationId == Some(c) && messages[k].id != c
        invariant forall a, b :: 0 <= a < b < |ids| ==> ids[a] != ids[b]
      {
        var m := messages[i];
        if m.conversationId.Some? && m.id != m.conversationId.value && m.conversationId.value !in ids {
          ids := ids + [m.conversationId.value];
        }
        i := i + 1;
      }
      assert forall m :: m in messages ==> exists k :: 0 <= k < |messages| && messages[k] == m;
    }

    method ClearMessages() returns (r: Result<()>)
      modifies this
      ensures (Tables(), r) == Store.ClearMessages(old(Tables()), characterName, fkEnforced)
    {
      var linked := exists m :: m in messages && LinkedTo(links, characterName, m);
      if linked {
        if fkEnforced {
          return Err(IntegrityError);
        }
        messages := Unlinked(messages, links, characterName);
      } else {
        assert Unlinked(messages, links, characterName) == messages by {
          UnlinkedNone(messages, links, characterName);
        }
      }
      return Ok(());
    }

    method GetCharacterSettings(freshId: string) returns (r: Result<SettingsRow>)
      modifies this
      ensures (Tables(), r) == Store.GetCharacterSettings(old(Tables()), characterNameId, freshId)
    {
      var found := FirstSettings(settings, characterNameId);
      if found.Some? {
        return Ok(found.value);
      }
      if freshId in SettingsIds(settings) {
        return Err(IntegrityError);
      }
      var row := SettingsRow(freshId, characterNameId, map[]);
      settings := settings + [row];
      return Ok(row);
    }

    method UpdateCharacterSettings(s: SettingsRow) returns (r: Result<()>)
      modifies this
      ensures (Tables(), r) == Store.UpdateCharacterSettings(old(Tables()), characterNameId, s)
    {
      var rows := Replaced(settings, characterNameId, s);
      if !SettingsIdsUnique(rows) {
        return Err(IntegrityError);
      }
      settings := rows;
      return Ok(());
    }

    /** Records one interaction with a user, building the user's history from
        the stored messages the first time. */
    method UpdateSocialMemory(userId: string, platform: string, messageId: string, content: string,
                              role: string, now: int, oracle: Social.OpinionOracle)
      returns (r: Result<Option<SocialMemory>>)
      modifies this
      ensures (Tables(), r) == Social.UpdateSocialMemory(old(Tables()), characterName, userId, platform,
                                                         messageId, content, role, OwnUsername(platform),
                                                         now, oracle)
    {
      var own := OwnUsername(platform);
      if userId == own {
        return Ok(None);
      }
      var key := MemoryKey(characterName, userId, platform);
      var memory: SocialMemory;
      if key in social {
        memory := social[key];
      } else {
        var hist := Social.Historical(Tables(), userId, platform);
        if hist == [] {
          // the initial opinion is read before it is assigned
          return Err(NameError);
        }
        var history := BuildHistory(hist, own);
        var opinion := Social.GenerateOpinion(history, None, oracle);
        memory := SocialMemory(characterName, userId, platform, None, |history|, Some(opinion),
                               Social.LastWindow(history), Some(messageId));
      }
      memory := StepMemory(memory, Entry(messageId, role, content), now, oracle);
      social := social[key := memory];
      return Ok(Some(memory));
    }

    /** The history a first interaction starts from: each historical message
        as a user entry, followed by the character's replies to it. */
    method BuildHistory(hist: seq<Message>, own: string) returns (history: seq<Entry>)
      ensures history == Social.BuildHistory(Tables(), hist, own)
    {
      var db := Tables();
      history := [];
      var i := 0;
      while i < |hist|
        invariant 0 <= i <= |hist|
        invariant history == Social.BuildHistory(db, hist[..i], own)
      {
        var msg := hist[i];
        var responses := Social.Responses(db, msg.id, own);
        var replies := AssistantEntries(responses);
        var chunk := [Entry(msg.id, Social.UserRole, msg.content)] + replies;
        assert chunk == Social.Chunk(db, msg, own);
        assert hist[..i + 1] == hist[..i] + [msg];
        Social.BuildHistoryAppend(db, hist[..i], msg, own);
        history := history + chunk;
        i := i + 1;
      }
      assert hist[..i] == hist;
    }
  }

  /** The character's replies as assistant entries, in the order given. */
  method AssistantEntries(responses: seq<Message>) returns (es: seq<Entry>)
    ensures es == Social.AssistantEntries(responses)
  {
    es := [];
    var j := 0;
    while j < |responses|
      invariant 0 <= j <= |responses|
      invariant es == Social.AssistantEntries(responses[..j])
    {
      assert responses[..j + 1] == responses[..j] + [responses[j]];
      AssistantEntriesAppend(responses[..j], responses[j]);
      es := es + [Entry(responses[j].id, Social.AssistantRole, responses[j].content)];
      j := j + 1;
    }
    assert responses[..j] == responses;
  }

  /** One more interaction on a memory row, field by field. */
  method StepMemory(m: SocialMemory, e: Entry, now: int, oracle: Social.OpinionOracle) returns (r: SocialMemory)
    ensures r == Social.Step(m, e, now, oracle)
  {
    var history := m.history + [e];
    r := m.(history := Social.LastWindow(history), interactionCount := m.interactionCount + 1,
            lastInteraction := Some(now));
    var unprocessed := Social.Unprocessed(history, m.lastProcessed);
    if |unprocessed| >= Social.RefreshAfter || m.lastProcessed.None? {
      r := r.(lastProcessed := Some(e.messageId));
      if |unprocessed| >= Social.RefreshAfter {
        r := r.(opinion := Some(Social.GenerateOpinion(history, r.opinion, oracle)));
      }
    }
  }

  lemma {:induction false} UnlinkedNone(ms: seq<Message>, links: map<string, Link>, name: string)
    requires forall m :: m in ms ==> !LinkedTo(links, name, m)
    ensures Unlinked(ms, links, name) == ms
  {
    if ms != [] {
      assert ms == [ms[0]] + ms[1..];
      UnlinkedNone(ms[1..], links, name);
    }
  }

  lemma AssistantEntriesAppend(rs: seq<Message>, m: Message)
    ensures Social.AssistantEntries(rs + [m]) ==
              Social.AssistantEntries(rs) + [Entry(m.id, Social.AssistantRole, m.content)]
  {
    var a := Social.AssistantEntries(rs + [m]);
    var b := Social.AssistantEntries(rs) + [Entry(m.id, Social.AssistantRole, m.content)];
    assert |a| == |b|;
    forall i | 0 <= i < |a| ensures a[i] == b[i] {
      if i < |rs| {
        assert (rs + [m])[i] == rs[i];
      }
    }
  }
}
