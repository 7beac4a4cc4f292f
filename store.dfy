/** The agent's database as values: the message table, the table that links a
    message to the character that stored it, the per-character settings rows
    and the social-memory rows; and the message-store operations on it. */
module Store {
  import opened Wrappers
  import opened Records
  import Sorting

  /** A row of the link table. Its primary key is the message id alone, so the
      table is a map from message id to the row. */
  datatype Link = Link(characterName: string, createdAt: int)

  /** A row of the settings table: a fresh id, the character's name id and a
      free-form JSON bag. */
  datatype SettingsRow = SettingsRow(id: string, characterNameId: string, bag: map<string, Json>)

  /** One entry of a social-memory conversation history. */
  datatype Entry = Entry(messageId: string, role: string, content: string)

  /** The unique index of the social-memory table. */
  datatype MemoryKey = MemoryKey(characterName: string, userId: string, platform: string)

  datatype SocialMemory = SocialMemory(
    characterName: string,
    userId: string,
    platform: string,
    lastInteraction: Option<int>,
    interactionCount: int,
    opinion: Option<string>,
    history: seq<Entry>,
    lastProcessed: Option<string>)

  datatype Db = Db(
    messages: seq<Message>,
    links: map<string, Link>,
    settings: seq<SettingsRow>,
    social: map<MemoryKey, SocialMemory>)

  const Empty: Db := Db([], map[], [], map[])

  predicate SettingsIdsUnique(rows: seq<SettingsRow>) {
    forall i, j :: 0 <= i < j < |rows| ==> rows[i].id != rows[j].id
  }

  function SettingsIds(rows: seq<SettingsRow>): set<string> {
    set r | r in rows :: r.id
  }

  predicate KeyOf(k: MemoryKey, m: SocialMemory) {
    m.characterName == k.characterName && m.userId == k.userId && m.platform == k.platform
  }

  /** The keys the tables declare: one message per id, one settings row per
      id, and each social-memory row filed under its own key. */
  predicate Valid(db: Db) {
    UniqueIds(db.messages) && SettingsIdsUnique(db.settings) &&
    forall k :: k in db.social ==> KeyOf(k, db.social[k])
  }

  // ---------------------------------------------------------------- queries

  datatype SortColumn = WenPosted

  /** The keyword arguments of the message query. Text filters count only
      when truthy; `flagged` is 0 (unflagged), 2 (both) or any other value
      (flagged as `bool(flagged)`); `excludeOwnConversations` is accepted and
      read by no filter. */
  datatype Query = Query(
    id: Option<string>,
    platform: Option<string>,
    author: Option<string>,
    notAuthor: Option<string>,
    character: Option<string>,
    conversationId: Option<string>,
    responseTo: Option<string>,
    flagged: int,
    sortBy: Option<SortColumn>,
    sortOrder: string,
    isPost: bool,
    fromTime: Option<int>,
    excludeOwnConversations: bool)

  /** The query with every argument at its default. */
  const AllMessages: Query :=
    Query(None, None, None, None, None, None, None, 0, None, "asc", false, None, false)

  const NotNull: string := "NOT NULL"

  predicate LinkedTo(links: map<string, Link>, name: string, m: Message) {
    m.id in links && links[m.id].characterName == name
  }

  /** The conjunction of every filter the query supplies. */
  predicate Matches(q: Query, links: map<string, Link>, m: Message) {
    (Truthy(q.character) ==> LinkedTo(links, q.character.value, m)) &&
    (Truthy(q.id) ==> m.id == q.id.value) &&
    (Truthy(q.platform) ==> m.platform == q.platform.value) &&
    (Truthy(q.author) ==> m.author == q.author.value) &&
    (Truthy(q.notAuthor) ==> m.author != q.notAuthor.value) &&
    (Truthy(q.conversationId) ==> m.conversationId == q.conversationId) &&
    (Truthy(q.responseTo) ==>
       if q.responseTo.value == NotNull then m.responseTo.Some? else m.responseTo == q.responseTo) &&
    (q.fromTime.Some? ==> m.wenPosted >= q.fromTime.value) &&
    (q.isPost ==> m.messageType == Some("post")) &&
    (q.flagged != 2 ==> m.flagged == Some(q.flagged != 0))
  }

  /** Without a sort column the query orders by posting time, newest first;
      with one, it ascends only for the order "asc". */
  predicate Descending(q: Query) {
    q.sortBy.None? || q.sortOrder != "asc"
  }

  function Filter(ms: seq<Message>, q: Query, links: map<string, Link>): (r: seq<Message>)
    ensures |r| <= |ms|
  {
    if ms == [] then []
    else (if Matches(q, links, ms[0]) then [ms[0]] else []) + Filter(ms[1..], q, links)
  }

  /** The filter keeps each matching row as often as it occurs. */
  lemma {:induction false} FilterCounts(ms: seq<Message>, q: Query, links: map<string, Link>)
    ensures forall m :: multiset(Filter(ms, q, links))[m] == if Matches(q, links, m) then multiset(ms)[m] else 0
  {
    if ms != [] {
      assert ms == [ms[0]] + ms[1..];
      FilterCounts(ms[1..], q, links);
    }
  }

  /** The sort key of a query: posting time, negated when descending. */
  function PostingKey(q: Query): Message -> int {
    if Descending(q) then (m: Message) => -m.wenPosted else (m: Message) => m.wenPosted
  }

  /** The rows that satisfy every supplied filter, in posting-time order;
      `GetMessagesCounts` says each is there as often as it is stored. */
  function GetMessages(db: Db, q: Query): (r: seq<Message>)
    ensures |r| <= |db.messages|
    ensures forall m :: m in r <==> m in db.messages && Matches(q, db.links, m)
    ensures Descending(q) ==> forall i, j :: 0 <= i < j < |r| ==> r[i].wenPosted >= r[j].wenPosted
    ensures !Descending(q) ==> forall i, j :: 0 <= i < j < |r| ==> r[i].wenPosted <= r[j].wenPosted
  {
    var f := Filter(db.messages, q, db.links);
    FilterCounts(db.messages, q, db.links);
    Sorting.SortByKeyCorrect(f, PostingKey(q));
    var r := Sorting.SortByKey(f, PostingKey(q));
    assert |multiset(r)| == |multiset(f)|;
    assert forall m :: m in r <==> multiset(r)[m] > 0;
    assert forall m :: m in db.messages <==> multiset(db.messages)[m] > 0;
    r
  }

  /** Each matching row is returned as often as it is stored, and no other. */
  lemma GetMessagesCounts(db: Db, q: Query)
    ensures forall m :: multiset(GetMessages(db, q))[m] ==
                          if Matches(q, db.links, m) then multiset(db.messages)[m] else 0
  {
    FilterCounts(db.messages, q, db.links);
    Sorting.SortByKeyCorrect(Filter(db.messages, q, db.links), PostingKey(q));
  }

  // --------------------------------------------------------------- inserts

  /** `str(message_id)`: an absent id is stored as the text "None". */
  function IdKey(messageId: Option<string>): string {
    if messageId.Some? then messageId.value else "None"
  }

  /** `character or self.character.name`. */
  function CharName(character: Option<string>, defaultName: string): string {
    if Truthy(character) then character.value else defaultName
  }

  /** The row a new message is stored as. */
  function NewRow(messageId: Option<string>, msg: GeneratedMessage, messageType: Option<string>,
                  originalData: Option<Json>, now: int): Message
  {
    Message(IdKey(messageId), Or(msg.conversationId, messageId), msg.platform, msg.author,
            msg.content, msg.responseTo, messageType, now, originalData, msg.flagged, msg.metadata)
  }

  /** Stores a message and links it to a character, inside one transaction.
      An id already stored returns the stored row; it gains a link only when it
      has none, because the link table admits one character per message and a
      second character's link fails and is rolled back. A new id is stored with
      the insertion time and its own id as conversation when it has none; if a
      link for that id is left over from a deleted message, the insert fails,
      is rolled back, and the error propagates. */
  function AddMessage(db: Db, messageId: Option<string>, msg: GeneratedMessage, messageType: Option<string>,
                      originalData: Option<Json>, character: Option<string>, defaultName: string,
                      now: int): (out: (Db, Result<Message>))
    ensures out.0.settings == db.settings && out.0.social == db.social
    ensures out.1.Err? <==> IdKey(messageId) !in Ids(db.messages) && IdKey(messageId) in db.links
    ensures out.1.Err? ==> out.0 == db && out.1.error == IntegrityError
    ensures out.1.Ok? ==> out.1.value.id == IdKey(messageId) && out.1.value in out.0.messages
    ensures out.1.Ok? ==> IdKey(messageId) in out.0.links
    ensures IdKey(messageId) in Ids(db.messages) ==>
              out.0.messages == db.messages && out.1 == Ok(SelectById(db.messages, IdKey(messageId)).value)
    ensures IdKey(messageId) !in Ids(db.messages) && out.1.Ok? ==>
              out.0.messages == db.messages + [out.1.value] &&
              out.1.value == NewRow(messageId, msg, messageType, originalData, now)
    ensures IdKey(messageId) in db.links ==> out.0.links == db.links
    ensures IdKey(messageId) !in db.links ==>
              out.0.links == db.links[IdKey(messageId) := Link(CharName(character, defaultName), out.1.value.wenPosted)]
  {
    var key := IdKey(messageId);
    var name := CharName(character, defaultName);
    var existing := SelectById(db.messages, key);
    if existing.Some? then
      if key in db.links then
        // linked already, to this character or (after a failed insert) to another
        (db, Ok(existing.value))
      else
        (db.(links := db.links[key := Link(name, existing.value.wenPosted)]), Ok(existing.value))
    else if key in db.links then
      (db, Err(IntegrityError))
    else
      var row := NewRow(messageId, msg, messageType, originalData, now);
      (db.(messages := db.messages + [row], links := db.links[key := Link(name, now)]), Ok(row))
  }

  /** Storing the same message twice stores it once: the second call returns
      what the first returned and changes nothing. */
  lemma AddMessageIdempotent(db: Db, messageId: Option<string>, msg: GeneratedMessage, messageType: Option<string>,
                             originalData: Option<Json>, character: Option<string>, defaultName: string,
                             now: int, later: int)
    ensures var (db1, r1) := AddMessage(db, messageId, msg, messageType, originalData, character, defaultName, now);
            AddMessage(db1, messageId, msg, messageType, originalData, character, defaultName, later) == (db1, r1)
  {
    var key := IdKey(messageId);
    var (db1, r1) := AddMessage(db, messageId, msg, messageType, originalData, character, defaultName, now);
    if key !in Ids(db.messages) && r1.Ok? {
      assert forall i :: 0 <= i < |db.messages| ==> db.messages[i].id != key by {
        forall i | 0 <= i < |db.messages| ensures db.messages[i].id != key {
          assert db.messages[i] in db.messages;
        }
      }
      assert db1.messages[|db.messages|] == r1.value;
      assert forall i :: 0 <= i < |db.messages| ==> db1.messages[i].id != key;
      var s := SelectById(db1.messages, key);
      var k :| 0 <= k < |db1.messages| && db1.messages[k] == s.value &&
               forall i :: 0 <= i < k ==> db1.messages[i].id != key;
      assert k == |db.messages|;
    }
  }

  /** The inserts keep every declared key. */
  lemma AddMessageKeepsValid(db: Db, messageId: Option<string>, msg: GeneratedMessage, messageType: Option<string>,
                             originalData: Option<Json>, character: Option<string>, defaultName: string, now: int)
    requires Valid(db)
    ensures Valid(AddMessage(db, messageId, msg, messageType, originalData, character, defaultName, now).0)
  {
    var key := IdKey(messageId);
    var (db1, r1) := AddMessage(db, messageId, msg, messageType, originalData, character, defaultName, now);
    if key !in Ids(db.messages) && r1.Ok? {
      forall i, j | 0 <= i < j < |db1.messages| ensures db1.messages[i].id != db1.messages[j].id {
        if j == |db.messages| {
          assert db1.messages[i] == db.messages[i];
          assert db.messages[i] in db.messages;
        }
      }
    }
  }

  // ---------------------------------------------------------------- deletes

  /** The messages not linked to `name`, in their stored order. */
  function Unlinked(ms: seq<Message>, links: map<string, Link>, name: string): (r: seq<Message>)
    ensures forall m :: multiset(r)[m] == if LinkedTo(links, name, m) then 0 else multiset(ms)[m]
  {
    if ms == [] then []
    else
      assert ms == [ms[0]] + ms[1..];
      (if LinkedTo(links, name, ms[0]) then [] else [ms[0]]) + Unlinked(ms[1..], links, name)
  }

  /** Deletes the messages linked to `name` with one bulk statement. A bulk
      delete does not run the link's delete-orphan cascade: with foreign keys
      enforced the database refuses it whenever something would be deleted,
      and the transaction is rolled back; without enforcement the messages go
      and their links stay behind. */
  function ClearMessages(db: Db, name: string, fkEnforced: bool): (out: (Db, Result<()>))
    ensures out.0.links == db.links && out.0.settings == db.settings && out.0.social == db.social
    ensures fkEnforced ==>
              (out.1.Err? <==> exists m :: m in db.messages && LinkedTo(db.links, name, m)) &&
              (out.1.Err? ==> out.1.error == IntegrityError) && out.0 == db
    ensures !fkEnforced ==> out.1.Ok?
    ensures !fkEnforced ==> forall m :: multiset(out.0.messages)[m] ==
                                         if LinkedTo(db.links, name, m) then 0 else multiset(db.messages)[m]
  {
    var kept := Unlinked(db.messages, db.links, name);
    if fkEnforced then
      if exists m :: m in db.messages && LinkedTo(db.links, name, m) then (db, Err(IntegrityError))
      else (db, Ok(()))
    else
      (db.(messages := kept), Ok(()))
  }

  lemma {:induction false} FilterUnlinked(ms: seq<Message>, q: Query, links: map<string, Link>, name: string)
    requires Truthy(q.character) && q.character.value != name
    ensures Filter(Unlinked(ms, links, name), q, links) == Filter(ms, q, links)
  {
    if ms != [] {
      var x, t := ms[0], ms[1..];
      FilterUnlinked(t, q, links, name);
      var u := Unlinked(t, links, name);
      assert Unlinked(ms, links, name) == (if LinkedTo(links, name, x) then [] else [x]) + u;
      assert Filter(ms, q, links) == (if Matches(q, links, x) then [x] else []) + Filter(t, q, links);
      if LinkedTo(links, name, x) {
        assert !Matches(q, links, x);
        assert Unlinked(ms, links, name) == u;
      } else {
        var v := [x] + u;
        assert v[0] == x && v[1..] == u;
        assert Filter(v, q, links) == (if Matches(q, links, x) then [x] else []) + Filter(u, q, links);
      }
    }
  }

  /** Clearing one character's messages leaves every other character's
      queries answering as before, and leaves nothing for this character. */
  lemma ClearMessagesScope(db: Db, name: string, q: Query)
    requires Truthy(q.character)
    ensures var db1 := ClearMessages(db, name, false).0;
            (q.character.value != name ==> GetMessages(db1, q) == GetMessages(db, q)) &&
            (q.character.value == name ==> GetMessages(db1, q) == [])
  {
    var db1 := ClearMessages(db, name, false).0;
    if q.character.value != name {
      FilterUnlinked(db.messages, q, db.links, name);
    } else {
      GetMessagesCounts(db1, q);
      assert multiset(GetMessages(db1, q)) == multiset{};
    }
  }

  /** After a clear without enforced foreign keys, a cleared id can never be
      stored again: its leftover link makes every insert fail. */
  lemma ClearedIdCannotReturn(db: Db, name: string, m: Message, msg: GeneratedMessage,
                              messageType: Option<string>, originalData: Option<Json>,
                              character: Option<string>, defaultName: string, now: int)
    requires UniqueIds(db.messages)
    requires m in db.messages && LinkedTo(db.links, name, m)
    ensures var db1 := ClearMessages(db, name, false).0;
            AddMessage(db1, Some(m.id), msg, messageType, originalData, character, defaultName, now).1
              == Err(IntegrityError)
  {
    var db1 := ClearMessages(db, name, false).0;
    if m.id in Ids(db1.messages) {
      var m' :| m' in db1.messages && m'.id == m.id;
      assert multiset(db1.messages)[m'] > 0;
      assert LinkedTo(db.links, name, m');
    }
  }

  /** The intended clear: the messages linked to `name` go together with their
      links, as the relationship's delete-orphan cascade would do. */
  function ClearMessagesCascade(db: Db, name: string): (out: Db)
    ensures out.settings == db.settings && out.social == db.social
    ensures forall m :: multiset(out.messages)[m] ==
                          if LinkedTo(db.links, name, m) then 0 else multiset(db.messages)[m]
    ensures forall k :: k in out.links <==> k in db.links && db.links[k].characterName != name
    ensures forall k :: k in out.links ==> out.links[k] == db.links[k]
  {
    var kept := Unlinked(db.messages, db.links, name);
    var links := map k | k in db.links && db.links[k].characterName != name :: db.links[k];
    Db(kept, links, db.settings, db.social)
  }

  /** After the intended clear, a cleared id can be stored again. */
  lemma ClearCascadeAllowsReAdd(db: Db, name: string, m: Message, msg: GeneratedMessage,
                                messageType: Option<string>, originalData: Option<Json>,
                                character: Option<string>, defaultName: string, now: int)
    requires UniqueIds(db.messages)
    requires m in db.messages && LinkedTo(db.links, name, m)
    ensures AddMessage(ClearMessagesCascade(db, name), Some(m.id), msg, messageType, originalData,
                       character, defaultName, now).1.Ok?
  {
    var db1 := ClearMessagesCascade(db, name);
    assert m.id !in db1.links;
  }

  // ---------------------------------------------------------------- settings

  function FirstSettings(rows: seq<SettingsRow>, nameId: string): (r: Option<SettingsRow>)
    ensures r.Some? ==> r.value in rows && r.value.characterNameId == nameId
    ensures r.None? <==> forall row :: row in rows ==> row.characterNameId != nameId
  {
    if rows == [] then None
    else if rows[0].characterNameId == nameId then Some(rows[0])
    else
      assert forall row :: row in rows ==> row == rows[0] || row in rows[1..];
      FirstSettings(rows[1..], nameId)
  }

  /** The character's settings row, created with an empty bag on first read
      under the fresh id `freshId`; a fresh id that is already taken violates
      the primary key. */
  function GetCharacterSettings(db: Db, nameId: string, freshId: string): (out: (Db, Result<SettingsRow>))
    ensures out.0.messages == db.messages && out.0.links == db.links && out.0.social == db.social
    ensures out.1.Ok? ==> out.1.value.characterNameId == nameId && out.1.value in out.0.settings
    ensures FirstSettings(db.settings, nameId).Some? ==>
              out == (db, Ok(FirstSettings(db.settings, nameId).value))
    ensures FirstSettings(db.settings, nameId).None? && freshId !in SettingsIds(db.settings) ==>
              out.1 == Ok(SettingsRow(freshId, nameId, map[])) && out.0.settings == db.settings + [out.1.value]
    ensures FirstSettings(db.settings, nameId).None? && freshId in SettingsIds(db.settings) ==>
              out == (db, Err(IntegrityError))
  {
    var found := FirstSettings(db.settings, nameId);
    if found.Some? then (db, Ok(found.value))
    else if freshId in SettingsIds(db.settings) then (db, Err(IntegrityError))
    else
      var row := SettingsRow(freshId, nameId, map[]);
      (db.(settings := db.settings + [row]), Ok(row))
  }

  /** Every row of the character takes all of `s`'s fields, id included; when
      that would give two rows one id, the update fails. */
  function UpdateCharacterSettings(db: Db, nameId: string, s: SettingsRow): (out: (Db, Result<()>))
    ensures out.0.messages == db.messages && out.0.links == db.links && out.0.social == db.social
    ensures out.1.Err? ==> out.0 == db && out.1.error == IntegrityError
    ensures out.1.Ok? ==> SettingsIdsUnique(out.0.settings)
    ensures out.1.Ok? ==> |out.0.settings| == |db.settings|
    ensures out.1.Ok? ==> forall i :: 0 <= i < |db.settings| ==>
                            out.0.settings[i] == if db.settings[i].characterNameId == nameId then s else db.settings[i]
  {
    var rows := Replaced(db.settings, nameId, s);
    if SettingsIdsUnique(rows) then (db.(settings := rows), Ok(())) else (db, Err(IntegrityError))
  }

  function Replaced(rows: seq<SettingsRow>, nameId: string, s: SettingsRow): (r: seq<SettingsRow>)
    ensures |r| == |rows|
    ensures forall i :: 0 <= i < |rows| ==> r[i] == if rows[i].characterNameId == nameId then s else rows[i]
  {
    seq(|rows|, i requires 0 <= i < |rows| => if rows[i].characterNameId == nameId then s else rows[i])
  }

  function CountNameId(rows: seq<SettingsRow>, nameId: string): nat {
    if rows == [] then 0
    else (if rows[0].characterNameId == nameId then 1 else 0) + CountNameId(rows[1..], nameId)
  }

  lemma {:induction false} CountNameIdAppend(rows: seq<SettingsRow>, row: SettingsRow, nameId: string)
    ensures CountNameId(rows + [row], nameId) ==
              CountNameId(rows, nameId) + (if row.characterNameId == nameId then 1 else 0)
  {
    if rows != [] {
      assert (rows + [row])[1..] == rows[1..] + [row];
      CountNameIdAppend(rows[1..], row, nameId);
    } else {
      assert [] + [row] == [row];
    }
  }

  lemma {:induction false} CountNameIdZero(rows: seq<SettingsRow>, nameId: string)
    requires FirstSettings(rows, nameId).None?
    ensures CountNameId(rows, nameId) == 0
  {
    if rows != [] {
      assert rows[0] in rows;
      assert forall row :: row in rows[1..] ==> row in rows;
      CountNameIdZero(rows[1..], nameId);
    }
  }

  lemma {:induction false} OnlyRow(rows: seq<SettingsRow>, nameId: string, k: nat)
    requires k < |rows| && rows[k].characterNameId == nameId && CountNameId(rows, nameId) <= 1
    ensures forall i :: 0 <= i < |rows| && i != k ==> rows[i].characterNameId != nameId
  {
    if k > 0 {
      CountPositive(rows[1..], nameId, k - 1);
      OnlyRow(rows[1..], nameId, k - 1);
      forall i | 0 < i < |rows| && i != k ensures rows[i].characterNameId != nameId {
        assert rows[i] == rows[1..][i - 1];
      }
    } else {
      forall i | 0 < i < |rows| ensures rows[i].characterNameId != nameId {
        if rows[i].characterNameId == nameId {
          CountPositive(rows[1..], nameId, i - 1);
        }
      }
    }
  }

  lemma {:induction false} FirstSettingsOnly(rows: seq<SettingsRow>, nameId: string, k: nat)
    requires k < |rows| && rows[k].characterNameId == nameId
    requires forall i :: 0 <= i < |rows| && i != k ==> rows[i].characterNameId != nameId
    ensures FirstSettings(rows, nameId) == Some(rows[k])
  {
    if k > 0 {
      FirstSettingsOnly(rows[1..], nameId, k - 1);
    }
  }

  lemma {:induction false} CountPositive(rows: seq<SettingsRow>, nameId: string, k: nat)
    requires k < |rows| && rows[k].characterNameId == nameId
    ensures CountNameId(rows, nameId) >= 1
  {
    if k > 0 {
      CountPositive(rows[1..], nameId, k - 1);
    }
  }

  /** Reading the settings, changing the bag and writing it back makes the next
      read return the new bag, as long as the character has at most one row. */
  lemma SettingsReadBack(db: Db, nameId: string, freshId: string, bag: map<string, Json>, freshId2: string)
    requires Valid(db) && CountNameId(db.settings, nameId) <= 1
    requires GetCharacterSettings(db, nameId, freshId).1.Ok?
    ensures var (db1, r1) := GetCharacterSettings(db, nameId, freshId);
            var (db2, r2) := UpdateCharacterSettings(db1, nameId, r1.value.(bag := bag));
            r2.Ok? && GetCharacterSettings(db2, nameId, freshId2) == (db2, Ok(r1.value.(bag := bag)))
  {
    var (db1, r1) := GetCharacterSettings(db, nameId, freshId);
    var row := r1.value;
    var rows := db1.settings;
    var k := ReadRow(db, nameId, freshId);
    OnlyRow(rows, nameId, k);
    var s := row.(bag := bag);
    var updated := Replaced(rows, nameId, s);
    assert updated == rows[k := s];
    assert SettingsIdsUnique(updated) by {
      forall i, j | 0 <= i < j < |updated| ensures updated[i].id != updated[j].id {
        assert rows[i].id != rows[j].id;
      }
    }
    FirstSettingsOnly(updated, nameId, k);
  }

  /** Where the row a successful read returns sits, with the facts the
      write-back needs. */
  lemma ReadRow(db: Db, nameId: string, freshId: string) returns (k: nat)
    requires Valid(db) && CountNameId(db.settings, nameId) <= 1
    requires GetCharacterSettings(db, nameId, freshId).1.Ok?
    ensures var (db1, r1) := GetCharacterSettings(db, nameId, freshId);
            k < |db1.settings| && db1.settings[k] == r1.value && SettingsIdsUnique(db1.settings) &&
            CountNameId(db1.settings, nameId) <= 1
  {
    var (db1, r1) := GetCharacterSettings(db, nameId, freshId);
    var rows := db1.settings;
    if FirstSettings(db.settings, nameId).Some? {
      k :| k < |rows| && rows[k] == r1.value;
    } else {
      CountNameIdZero(db.settings, nameId);
      CountNameIdAppend(db.settings, r1.value, nameId);
      k := |db.settings|;
      forall i, j | 0 <= i < j < |rows| ensures rows[i].id != rows[j].id {
        if j == k { assert rows[i] in db.settings; }
      }
    }
  }

  /** Two rows under one name id cannot both be updated: they would share the
      schema's id. */
  lemma DuplicateSettingsUpdateFails(db: Db, nameId: string, s: SettingsRow, i: nat, j: nat)
    requires i < j < |db.settings|
    requires db.settings[i].characterNameId == nameId && db.settings[j].characterNameId == nameId
    ensures UpdateCharacterSettings(db, nameId, s).1 == Err(IntegrityError)
  {
    var rows := Replaced(db.settings, nameId, s);
    assert rows[i].id == rows[j].id;
  }
}
