/** The records the message store keeps and hands out: JSON values, generated
    and stored messages, and the list helpers defined on the message schema. */
module Records {
  import opened Wrappers

  /** A JSON value as stored in a JSON column. Numbers are integers here. */
  datatype Json =
    | JNull
    | JBool(b: bool)
    | JNum(n: int)
    | JStr(s: string)
    | JArr(items: seq<Json>)
    | JObj(fields: map<string, Json>)

  /** A message produced by a client or a generator, before it is stored.
      `flagged` is nullable, as the schema allows. */
  datatype GeneratedMessage = GeneratedMessage(
    conversationId: Option<string>,
    content: string,
    platform: string,
    author: string,
    character: Option<string>,
    responseTo: Option<string>,
    flagged: Option<bool>,
    metadata: Option<Json>)

  /** A generated message built from its three required fields; every other
      field takes the schema's default. */
  function Generated(content: string, platform: string, author: string): (g: GeneratedMessage)
    ensures g.content == content && g.platform == platform && g.author == author
    ensures g.conversationId.None? && g.character.None? && g.responseTo.None?
    ensures g.metadata.None? && g.flagged == Some(false)
  {
    GeneratedMessage(None, content, platform, author, None, None, Some(false), None)
  }

  /** A row of the message table. `wenPosted` is in integer seconds. */
  datatype Message = Message(
    id: string,
    conversationId: Option<string>,
    platform: string,
    author: string,
    content: string,
    responseTo: Option<string>,
    messageType: Option<string>,
    wenPosted: int,
    originalData: Option<Json>,
    flagged: Option<bool>,
    metadata: Option<Json>)

  /** A stored message built from a generated one, with the stored schema's
      defaults for the fields a generated message does not have. */
  function Stored(id: string, g: GeneratedMessage, now: int): (m: Message)
    ensures m.id == id && m.wenPosted == now && m.originalData.None? && m.messageType.None?
    ensures m.conversationId == g.conversationId && m.content == g.content
    ensures m.platform == g.platform && m.author == g.author && m.responseTo == g.responseTo
    ensures m.flagged == g.flagged && m.metadata == g.metadata
  {
    Message(id, g.conversationId, g.platform, g.author, g.content, g.responseTo,
            None, now, None, g.flagged, g.metadata)
  }

  /** Python truthiness of the nullable `flagged` column. */
  predicate IsFlagged(m: Message) {
    m.flagged == Some(true)
  }

  predicate UniqueIds(ms: seq<Message>) {
    forall i, j :: 0 <= i < j < |ms| ==> ms[i].id != ms[j].id
  }

  function Ids(ms: seq<Message>): set<string> {
    set m | m in ms :: m.id
  }

  /** The first message with the given id. */
  function SelectById(ms: seq<Message>, id: string): (r: Option<Message>)
    ensures r.Some? ==> r.value in ms && r.value.id == id
    ensures r.None? <==> id !in Ids(ms)
    ensures r.Some? ==> exists k :: 0 <= k < |ms| && ms[k] == r.value &&
                                      forall i :: 0 <= i < k ==> ms[i].id != id
  {
    if ms == [] then None
    else if ms[0].id == id then Some(ms[0])
    else
      var r := SelectById(ms[1..], id);
      assert ms == [ms[0]] + ms[1..];
      assert Ids(ms) == {ms[0].id} + Ids(ms[1..]);
      if r.Some? then
        var k :| 0 <= k < |ms[1..]| && ms[1..][k] == r.value &&
                 forall i :: 0 <= i < k ==> ms[1..][i].id != id;
        assert ms[k + 1] == r.value;
        assert forall i :: 0 <= i < k + 1 ==> ms[i].id != id by {
          forall i | 0 <= i < k + 1 ensures ms[i].id != id {
            if i > 0 { assert ms[i] == ms[1..][i - 1]; }
          }
        }
        r
      else r
  }

  /** In a table with unique ids, the selected message is the only one with
      that id. */
  lemma {:induction false} SelectByIdUnique(ms: seq<Message>, id: string, m: Message)
    requires UniqueIds(ms)
    requires m in ms && m.id == id
    ensures SelectById(ms, id) == Some(m)
  {
    var r := SelectById(ms, id);
    var k :| 0 <= k < |ms| && ms[k] == r.value && forall i :: 0 <= i < k ==> ms[i].id != id;
    var j :| 0 <= j < |ms| && ms[j] == m;
    assert j == k;
  }

  const Separator: string := "\n\n==========\n\n"

  /** The message list as text: each message's own printed form, followed by a
      separator line of ten "=" between blank lines. */
  function PrintableList(ms: seq<Message>, printable: Message -> string): string {
    if ms == [] then "" else printable(ms[0]) + Separator + PrintableList(ms[1..], printable)
  }

  /** Printing a list is printing its parts one after the other. */
  lemma {:induction false} PrintableListAppend(a: seq<Message>, b: seq<Message>, printable: Message -> string)
    ensures PrintableList(a + b, printable) == PrintableList(a, printable) + PrintableList(b, printable)
  {
    if a != [] {
      assert (a + b)[1..] == a[1..] + b;
      PrintableListAppend(a[1..], b, printable);
    } else {
      assert a + b == b;
    }
  }

  /** Each message contributes its printed form and exactly one separator. */
  lemma {:induction false} PrintableListLength(ms: seq<Message>, printable: Message -> string)
    ensures |PrintableList(ms, printable)| == |ms| * |Separator| + SumLengths(ms, printable)
  {
    if ms != [] {
      PrintableListLength(ms[1..], printable);
    }
  }

  function SumLengths(ms: seq<Message>, printable: Message -> string): nat {
    if ms == [] then 0 else |printable(ms[0])| + SumLengths(ms[1..], printable)
  }
}
