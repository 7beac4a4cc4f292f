/** The social-memory rule: per character, user and platform, a rolling window
    of the last 20 interactions, an interaction counter, a high-water mark that
    records which interactions the stored opinion already reflects, and the
    opinion itself, refreshed once 10 or more interactions sit past the mark. */
module Social {
  import opened Wrappers
  import opened Records
  import opened Text
  import opened Store

  const Window: nat := 20
  const RefreshAfter: nat := 10
  const NoPreviousOpinion: string := "No previous opinion"
  const UnableToForm: string := "Unable to form opinion"
  const UserRole: string := "user"
  const AssistantRole: string := "assistant"

  /** The language model that forms an opinion from a history and the
      previous opinion; None stands for a call that raised. */
  type OpinionOracle = (seq<Entry>, string) -> Option<string>

  /** `history[-20:]`. */
  function LastWindow(h: seq<Entry>): (r: seq<Entry>)
    ensures |r| == if |h| <= Window then |h| else Window
    ensures r == h[|h| - |r|..]
  {
    if |h| <= Window then h else h[|h| - Window..]
  }

  /** Cutting the window before appending loses nothing the window would keep. */
  lemma WindowOfAppend(h: seq<Entry>, e: Entry)
    ensures LastWindow(LastWindow(h) + [e]) == LastWindow(h + [e])
  {
    if |h| > Window {
      var w := LastWindow(h);
      assert w + [e] == h[|h| - Window..] + [e];
      assert LastWindow(w + [e]) == h[|h| - Window + 1..] + [e];
      assert LastWindow(h + [e]) == (h + [e])[|h| + 1 - Window..];
      assert (h + [e])[|h| + 1 - Window..] == h[|h| + 1 - Window..] + [e];
    }
  }

  // ------------------------------------------------------- opinion cleanup

  const IntroPrefixes: seq<string> := ["based on", "my opinion", "i think", "i believe"]

  predicate HasIntro(o: string) {
    exists k :: 0 <= k < |IntroPrefixes| && StartsWith(Lower(o), IntroPrefixes[k])
  }

  /** `ws[2:]`. */
  function DropTwo(ws: seq<string>): (r: seq<string>)
    ensures Words(ws) ==> Words(r)
  {
    if |ws| <= 2 then [] else ws[2..]
  }

  /** The model's answer stripped; an answer that opens with one of the intro
      phrases loses its first two words, and its words are joined by single
      spaces. */
  function CleanOpinion(raw: string): (o: string)
    ensures o == [] || (!IsSpace(o[0]) && !IsSpace(o[|o| - 1]))
    ensures !HasIntro(Strip(raw)) ==> o == Strip(raw)
    ensures HasIntro(Strip(raw)) ==> Split(o) == DropTwo(Split(Strip(raw))) && SingleSpaced(o)
  {
    var s := Strip(raw);
    StripEnds(raw);
    if HasIntro(s) then
      var rest := DropTwo(Split(s));
      JoinSpaceEnds(rest);
      SplitJoinSpace(rest);
      JoinSpaceSingleSpaced(rest);
      JoinSpace(rest)
    else s
  }

  /** One opinion request. The previous opinion, or "No previous opinion", is
      handed to the model; when the call fails, the previous opinion, or
      "Unable to form opinion", is kept. */
  function GenerateOpinion(h: seq<Entry>, previous: Option<string>, oracle: OpinionOracle): (o: string)
    ensures oracle(h, Or(previous, Some(NoPreviousOpinion)).value).None? ==>
              o == Or(previous, Some(UnableToForm)).value
    ensures oracle(h, Or(previous, Some(NoPreviousOpinion)).value).Some? ==>
              o == CleanOpinion(oracle(h, Or(previous, Some(NoPreviousOpinion)).value).value)
  {
    var answer := oracle(h, if Truthy(previous) then previous.value else NoPreviousOpinion);
    if answer.None? then (if Truthy(previous) then previous.value else UnableToForm)
    else CleanOpinion(answer.value)
  }

  // ---------------------------------------------------- the high-water mark

  /** The index of the first entry with the given message id, or -1. */
  function FirstIndexOf(h: seq<Entry>, id: string): (r: int)
    ensures -1 <= r < |h|
    ensures r >= 0 ==> h[r].messageId == id && forall i :: 0 <= i < r ==> h[i].messageId != id
    ensures r == -1 ==> forall i :: 0 <= i < |h| ==> h[i].messageId != id
  {
    if h == [] then -1
    else if h[0].messageId == id then 0
    else
      var r := FirstIndexOf(h[1..], id);
      if r == -1 then -1 else r + 1
  }

  /** The entries after the first one with the mark's id; all of them when the
      mark is empty or absent. */
  function Unprocessed(h: seq<Entry>, mark: Option<string>): (u: seq<Entry>)
    ensures |u| <= |h| && u == h[|h| - |u|..]
    ensures Truthy(mark) && FirstIndexOf(h, mark.value) >= 0 ==>
              |u| == |h| - 1 - FirstIndexOf(h, mark.value)
    ensures !Truthy(mark) ==> u == h
    ensures Truthy(mark) && FirstIndexOf(h, mark.value) < 0 ==> u == h
  {
    if !Truthy(mark) then h
    else
      var j := FirstIndexOf(h, mark.value);
      if j < 0 then h else h[j + 1..]
  }

  /** One recorded interaction: the entry joins the history, the window keeps
      the last 20, the counter goes up by one, the mark moves to this entry
      when 10 or more entries are unprocessed or no mark is set, and the
      opinion is regenerated, from the whole uncut history, only in the first
      of these cases. */
  function Step(m: SocialMemory, e: Entry, now: int, oracle: OpinionOracle): (r: SocialMemory)
    ensures r.characterName == m.characterName && r.userId == m.userId && r.platform == m.platform
    ensures r.history == LastWindow(m.history + [e]) && r.history[|r.history| - 1] == e
    ensures r.interactionCount == m.interactionCount + 1 && r.lastInteraction == Some(now)
    ensures var u := Unprocessed(m.history + [e], m.lastProcessed);
            (|u| >= RefreshAfter || m.lastProcessed.None? ==> r.lastProcessed == Some(e.messageId)) &&
            (|u| < RefreshAfter && m.lastProcessed.Some? ==> r.lastProcessed == m.lastProcessed) &&
            (|u| >= RefreshAfter ==> r.opinion == Some(GenerateOpinion(m.history + [e], m.opinion, oracle))) &&
            (|u| < RefreshAfter ==> r.opinion == m.opinion)
  {
    var h := m.history + [e];
    var u := Unprocessed(h, m.lastProcessed);
    var refresh := |u| >= RefreshAfter;
    m.(history := LastWindow(h),
       interactionCount := m.interactionCount + 1,
       lastInteraction := Some(now),
       lastProcessed := if refresh || m.lastProcessed.None? then Some(e.messageId) else m.lastProcessed,
       opinion := if refresh then Some(GenerateOpinion(h, m.opinion, oracle)) else m.opinion)
  }

  predicate FreshId(h: seq<Entry>, id: string) {
    forall i :: 0 <= i < |h| ==> h[i].messageId != id
  }

  /** The mark sits `c` entries from the end of the stored history. */
  predicate MarkedBehind(m: SocialMemory, c: nat) {
    Truthy(m.lastProcessed) && FirstIndexOf(m.history, m.lastProcessed.value) >= 0 &&
    FirstIndexOf(m.history, m.lastProcessed.value) == |m.history| - 1 - c
  }

  lemma {:induction false} FirstIndexOfSuffix(h: seq<Entry>, d: nat, id: string)
    requires d <= |h| && FirstIndexOf(h, id) >= d
    ensures FirstIndexOf(h[d..], id) == FirstIndexOf(h, id) - d
  {
    if d > 0 {
      FirstIndexOfSuffix(h[1..], d - 1, id);
      assert h[1..][d - 1..] == h[d..];
    }
  }

  lemma {:induction false} FirstIndexOfAppend(h: seq<Entry>, e: Entry, id: string)
    requires FirstIndexOf(h, id) >= 0
    ensures FirstIndexOf(h + [e], id) == FirstIndexOf(h, id)
  {
    if h[0].messageId != id {
      assert (h + [e])[1..] == h[1..] + [e];
      FirstIndexOfAppend(h[1..], e, id);
    }
  }

  lemma {:induction false} FirstIndexOfLast(h: seq<Entry>, e: Entry)
    requires FreshId(h, e.messageId)
    ensures FirstIndexOf(h + [e], e.messageId) == |h|
  {
    if h != [] {
      assert (h + [e])[1..] == h[1..] + [e];
      FirstIndexOfLast(h[1..], e);
    }
  }

  /** The refresh cadence. With the mark `c` < 10 entries behind and a new
      entry with a fresh non-empty id, either the mark and the opinion stay
      and the mark is `c + 1` behind, or, at the tenth unprocessed entry, the
      opinion is regenerated and the mark moves onto the new entry. So with
      distinct ids the opinion is refreshed exactly every tenth interaction,
      and the window of 20 never loses the mark. */
  lemma StepCadence(m: SocialMemory, c: nat, e: Entry, now: int, oracle: OpinionOracle)
    requires c < RefreshAfter && MarkedBehind(m, c)
    requires e.messageId != "" && FreshId(m.history, e.messageId)
    ensures var r := Step(m, e, now, oracle);
            if c + 1 < RefreshAfter then
              r.lastProcessed == m.lastProcessed && r.opinion == m.opinion && MarkedBehind(r, c + 1)
            else
              r.lastProcessed == Some(e.messageId) && MarkedBehind(r, 0) &&
              r.opinion == Some(GenerateOpinion(m.history + [e], m.opinion, oracle))
  {
    var h := m.history + [e];
    var x := m.lastProcessed.value;
    var j := FirstIndexOf(m.history, x);
    FirstIndexOfAppend(m.history, e, x);
    assert |Unprocessed(h, m.lastProcessed)| == c + 1;
    var r := Step(m, e, now, oracle);
    var d := |h| - |r.history|;
    assert r.history == h[d..];
    if c + 1 < RefreshAfter {
      FirstIndexOfSuffix(h, d, x);
    } else {
      FirstIndexOfLast(m.history, e);
      FirstIndexOfSuffix(h, d, e.messageId);
    }
  }

  // --------------------------------------------------------- the whole update

  /** The character's replies to a message, newest first. */
  function Responses(db: Db, messageId: string, ownUsername: string): seq<Message> {
    GetMessages(db, AllMessages.(responseTo := Some(messageId), author := Some(ownUsername)))
  }

  function AssistantEntries(rs: seq<Message>): (es: seq<Entry>)
    ensures |es| == |rs|
    ensures forall i :: 0 <= i < |rs| ==> es[i] == Entry(rs[i].id, AssistantRole, rs[i].content)
  {
    if rs == [] then [] else [Entry(rs[0].id, AssistantRole, rs[0].content)] + AssistantEntries(rs[1..])
  }

  /** A historical message as a user entry, followed by the character's
      replies to it. */
  function Chunk(db: Db, msg: Message, ownUsername: string): seq<Entry> {
    [Entry(msg.id, UserRole, msg.content)] + AssistantEntries(Responses(db, msg.id, ownUsername))
  }

  function BuildHistory(db: Db, hist: seq<Message>, ownUsername: string): seq<Entry> {
    if hist == [] then [] else Chunk(db, hist[0], ownUsername) + BuildHistory(db, hist[1..], ownUsername)
  }

  /** The history can be built front to back, one message at a time. */
  lemma {:induction false} BuildHistoryAppend(db: Db, hist: seq<Message>, msg: Message, ownUsername: string)
    ensures BuildHistory(db, hist + [msg], ownUsername) ==
              BuildHistory(db, hist, ownUsername) + Chunk(db, msg, ownUsername)
  {
    if hist == [] {
      assert [] + [msg] == [msg];
      assert BuildHistory(db, [msg], ownUsername) == Chunk(db, msg, ownUsername) + BuildHistory(db, [], ownUsername);
    } else {
      assert (hist + [msg])[1..] == hist[1..] + [msg];
      BuildHistoryAppend(db, hist[1..], msg, ownUsername);
    }
  }

  function UserEntries(h: seq<Entry>): seq<Entry> {
    if h == [] then [] else (if h[0].role == UserRole then [h[0]] else []) + UserEntries(h[1..])
  }

  lemma {:induction false} UserEntriesAppend(a: seq<Entry>, b: seq<Entry>)
    ensures UserEntries(a + b) == UserEntries(a) + UserEntries(b)
  {
    if a == [] {
      assert a + b == b;
    } else {
      var head := if a[0].role == UserRole then [a[0]] else [];
      assert (a + b)[0] == a[0] && (a + b)[1..] == a[1..] + b;
      assert UserEntries(a + b) == head + UserEntries(a[1..] + b);
      UserEntriesAppend(a[1..], b);
      assert head + (UserEntries(a[1..]) + UserEntries(b)) == (head + UserEntries(a[1..])) + UserEntries(b);
    }
  }

  lemma {:induction false} NoUserEntries(rs: seq<Message>)
    ensures UserEntries(AssistantEntries(rs)) == []
  {
    if rs != [] {
      assert AssistantEntries(rs)[1..] == AssistantEntries(rs[1..]);
      NoUserEntries(rs[1..]);
    }
  }

  /** The user entries of the built history are the historical messages, in
      order; everything else is the character's own replies. */
  lemma {:induction false} BuildHistoryUsers(db: Db, hist: seq<Message>, ownUsername: string)
    ensures UserEntries(BuildHistory(db, hist, ownUsername)) ==
              seq(|hist|, i requires 0 <= i < |hist| => Entry(hist[i].id, UserRole, hist[i].content))
    ensures |BuildHistory(db, hist, ownUsername)| >= |hist|
  {
    if hist != [] {
      var first := [Entry(hist[0].id, UserRole, hist[0].content)];
      var replies := AssistantEntries(Responses(db, hist[0].id, ownUsername));
      var rest := BuildHistory(db, hist[1..], ownUsername);
      assert BuildHistory(db, hist, ownUsername) == first + replies + rest;
      BuildHistoryUsers(db, hist[1..], ownUsername);
      UserEntriesAppend(first + replies, rest);
      UserEntriesAppend(first, replies);
      NoUserEntries(Responses(db, hist[0].id, ownUsername));
      assert UserEntries(first) == first;
    }
  }

  /** The user's unflagged messages on the platform, oldest first. */
  function Historical(db: Db, userId: string, platform: string): seq<Message> {
    GetMessages(db, AllMessages.(author := Some(userId), platform := Some(platform),
                                 sortBy := Some(WenPosted), sortOrder := "asc"))
  }

  /** The row a first interaction creates, as written: with no historical
      messages the initial opinion is read before it is ever assigned. */
  function InitialMemory(db: Db, key: MemoryKey, messageId: string, ownUsername: string,
                         oracle: OpinionOracle): (r: Result<SocialMemory>)
    ensures r.Err? <==> Historical(db, key.userId, key.platform) == []
    ensures r.Err? ==> r.error == NameError
    ensures r.Ok? ==> (KeyOf(key, r.value) && r.value.lastProcessed == Some(messageId) &&
                       r.value.interactionCount >= |Historical(db, key.userId, key.platform)|)
  {
    var hist := Historical(db, key.userId, key.platform);
    if hist == [] then Err(NameError)
    else
      var h := BuildHistory(db, hist, ownUsername);
      BuildHistoryUsers(db, hist, ownUsername);
      Ok(SocialMemory(key.characterName, key.userId, key.platform, None, |h|,
                      Some(GenerateOpinion(h, None, oracle)), LastWindow(h), Some(messageId)))
  }

  /** The row a first interaction would create had the initial opinion been
      set to None before the branch: the current message is the whole history. */
  function InitialMemoryFixed(db: Db, key: MemoryKey, messageId: string, content: string, role: string,
                              ownUsername: string, oracle: OpinionOracle): (r: SocialMemory)
    ensures KeyOf(key, r) && r.lastProcessed == Some(messageId)
    ensures InitialMemory(db, key, messageId, ownUsername, oracle).Ok? ==>
              r == InitialMemory(db, key, messageId, ownUsername, oracle).value
    ensures InitialMemory(db, key, messageId, ownUsername, oracle).Err? ==>
              r.history == [Entry(messageId, role, content)] && r.opinion.None? && r.interactionCount == 1
  {
    var initial := InitialMemory(db, key, messageId, ownUsername, oracle);
    if initial.Ok? then initial.value
    else SocialMemory(key.characterName, key.userId, key.platform, None, 1, None,
                      [Entry(messageId, role, content)], Some(messageId))
  }

  /** Files the row under its key after one more interaction. */
  function Record(db: Db, key: MemoryKey, row: Result<SocialMemory>, e: Entry, now: int,
                  oracle: OpinionOracle): (out: (Db, Result<Option<SocialMemory>>))
    ensures row.Err? ==> out == (db, Err(row.error))
    ensures row.Ok? ==> out == (db.(social := db.social[key := Step(row.value, e, now, oracle)]),
                                Ok(Some(Step(row.value, e, now, oracle))))
  {
    if row.Err? then (db, Err(row.error))
    else
      var m := Step(row.value, e, now, oracle);
      (db.(social := db.social[key := m]), Ok(Some(m)))
  }

  /** `update_social_memory`. The character's own account gets no memory. An
      existing row takes one step; a new row is built from the user's history
      and then takes the step for the current message. */
  function UpdateSocialMemory(db: Db, characterName: string, userId: string, platform: string,
                              messageId: string, content: string, role: string, ownUsername: string,
                              now: int, oracle: OpinionOracle): (out: (Db, Result<Option<SocialMemory>>))
    ensures out.0.messages == db.messages && out.0.links == db.links && out.0.settings == db.settings
    ensures userId == ownUsername ==> out == (db, Ok(None))
    ensures out.1.Err? ==> (out.0 == db && out.1.error == NameError &&
                            MemoryKey(characterName, userId, platform) !in db.social &&
                            Historical(db, userId, platform) == [])
    ensures out.1.Ok? && out.1.value.Some? ==>
              var key := MemoryKey(characterName, userId, platform);
              var m := out.1.value.value;
              out.0.social == db.social[key := m] && 1 <= |m.history| <= Window &&
              m.history[|m.history| - 1] == Entry(messageId, role, content) &&
              (Valid(db) ==> KeyOf(key, m)) &&
              (key in db.social ==> m.interactionCount == db.social[key].interactionCount + 1)
  {
    if userId == ownUsername then (db, Ok(None))
    else
      var key := MemoryKey(characterName, userId, platform);
      var row := if key in db.social then Ok(db.social[key])
                 else InitialMemory(db, key, messageId, ownUsername, oracle);
      Record(db, key, row, Entry(messageId, role, content), now, oracle)
  }

  /** The same update with the initial opinion defaulting to None. */
  function UpdateSocialMemoryFixed(db: Db, characterName: string, userId: string, platform: string,
                                   messageId: string, content: string, role: string, ownUsername: string,
                                   now: int, oracle: OpinionOracle): (out: (Db, Result<Option<SocialMemory>>))
    ensures out.1.Ok?
    ensures userId != ownUsername ==> (out.1.value.Some? &&
              out.0.social == db.social[MemoryKey(characterName, userId, platform) := out.1.value.value])
    ensures var asWritten := UpdateSocialMemory(db, characterName, userId, platform, messageId, content,
                                                role, ownUsername, now, oracle);
            asWritten.1.Ok? ==> out == asWritten
  {
    if userId == ownUsername then (db, Ok(None))
    else
      var key := MemoryKey(characterName, userId, platform);
      var row := if key in db.social then db.social[key]
                 else InitialMemoryFixed(db, key, messageId, content, role, ownUsername, oracle);
      Record(db, key, Ok(row), Entry(messageId, role, content), now, oracle)
  }

  /** As written, the first interaction of a user with no stored messages
      raises. */
  lemma NewUserWithoutHistoryFails(characterName: string, userId: string, platform: string,
                                   messageId: string, content: string, role: string, ownUsername: string,
                                   now: int, oracle: OpinionOracle)
    requires userId != ownUsername
    ensures UpdateSocialMemory(Empty, characterName, userId, platform, messageId, content, role,
                               ownUsername, now, oracle).1 == Err(NameError)
  {
    assert Historical(Empty, userId, platform) == [];
  }

  /** `get_social_memory`. */
  function GetSocialMemory(db: Db, characterName: string, userId: string, platform: string): (r: Option<SocialMemory>)
    ensures r.Some? <==> MemoryKey(characterName, userId, platform) in db.social
    ensures r.Some? ==> r.value == db.social[MemoryKey(characterName, userId, platform)]
  {
    var key := MemoryKey(characterName, userId, platform);
    if key in db.social then Some(db.social[key]) else None
  }

  /** An update keeps the table's keys, and the next read returns what the
      update returned. */
  lemma UpdateThenRead(db: Db, characterName: string, userId: string, platform: string,
                       messageId: string, content: string, role: string, ownUsername: string,
                       now: int, oracle: OpinionOracle)
    requires Valid(db)
    ensures var (db1, r) := UpdateSocialMemory(db, characterName, userId, platform, messageId, content,
                                               role, ownUsername, now, oracle);
            Valid(db1) &&
            (r.Ok? && r.value.Some? ==> GetSocialMemory(db1, characterName, userId, platform) == r.value)
  {
  }
}
