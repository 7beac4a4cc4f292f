/** The character: its name id, the defaults a character file is read with,
    the mood of the moment, and the post examples, which a random pick
    shuffles in place. */
module Character {
  import opened Wrappers
  import opened Text
  import opened Records
  import opened Config
  import Settings

  // ------------------------------------------------------------- name id

  /** The name id a character file gives: the file name up to its first dot. */
  function FileNameId(path: string): (r: string)
    ensures '/' !in r && '.' !in r
  {
    FirstSegment(LastSegment(path, '/'), '.')
  }

  /** For `dir/base.ext` the name id is `base`. */
  lemma FileNameIdOfPath(dir: string, base: string, ext: string)
    requires '/' !in base && '.' !in base && '/' !in ext
    ensures FileNameId(dir + "/" + base + "." + ext) == base
  {
    assert dir + "/" + base + "." + ext == dir + ['/'] + (base + "." + ext);
    assert '/' !in base + "." + ext;
    LastSegmentAfter(dir, '/', base + "." + ext);
    assert base + "." + ext == base + ['.'] + ext;
    FirstSegmentBefore(base, '.', ext);
  }

  /** The name id of a character built from arguments: the one given when
      it is truthy, otherwise the lower-cased name; without a name, reading
      it raises. */
  function ArgsNameId(name: Option<string>, nameId: Option<string>): (r: Result<string>)
    ensures r.Err? <==> !Truthy(nameId) && name.None?
    ensures r.Err? ==> r.error == AttributeError
    ensures r.Ok? && Truthy(nameId) ==> r.value == nameId.value
    ensures r.Ok? && !Truthy(nameId) ==> r.value == Lower(name.value)
  {
    if Truthy(nameId) then Ok(nameId.value)
    else if name.None? then Err(AttributeError)
    else Ok(Lower(name.value))
  }

  // ------------------------------------------------------ character files

  /** What `load_from_json` assigns; `None` marks a key the file lacks. */
  datatype CharacterFile = CharacterFile(
    name: Json,
    nameId: string,
    twitterUsername: Json,
    intro: Json,
    lore: Json,
    instructions: Option<Json>,
    bio: Option<Json>,
    traits: Option<Json>,
    moods: Option<Json>,
    postExamples: Option<Json>,
    postParameters: Json,
    messageExamples: Option<Json>,
    topics: Option<Json>,
    plugins: Json,
    platformSettings: Json,
    responding: Json,
    knowledgeModules: Json)

  const DefaultPostParameters: Json :=
    JObj(map["length_ranges" := JArr([JStr("1-5"), JStr("20-30"), JStr("50-100")])])
  const DefaultResponding: Json := JObj(map["enabled" := JBool(true), "filtering_rules" := JArr([])])

  function Optional(data: map<string, Json>, key: string): Option<Json> {
    if key in data then Some(data[key]) else None
  }

  function Defaulted(data: map<string, Json>, key: string, default: Json): Json {
    if key in data then data[key] else default
  }

  /** Reads a character file's data. The name id is the one given, else the
      file's own name id, else the lower-cased name; `name`,
      `twitter_username`, `intro` and `lore` are required. */
  function LoadFromJson(path: string, data: map<string, Json>, nameId: Option<string>): (r: Result<CharacterFile>)
    ensures r.Err? <==> (exists k :: k in ["name", "twitter_username", "intro", "lore"] && k !in data) ||
                        (!Truthy(nameId) && FileNameId(path) == "" && !data["name"].JStr?)
    ensures "name" !in data ==> r == Err(KeyError)
    ensures r.Ok? ==> r.value.name == data["name"] && r.value.twitterUsername == data["twitter_username"] &&
                      r.value.intro == data["intro"] && r.value.lore == data["lore"]
    ensures r.Ok? && Truthy(nameId) ==> r.value.nameId == nameId.value
    ensures r.Ok? && !Truthy(nameId) && FileNameId(path) != "" ==> r.value.nameId == FileNameId(path)
    ensures r.Ok? && !Truthy(nameId) && FileNameId(path) == "" ==> r.value.nameId == Lower(data["name"].s)
    ensures r.Ok? ==> r.value.moods == Optional(data, "moods") && r.value.postExamples == Optional(data, "post_examples")
    ensures r.Ok? ==> r.value.instructions == Optional(data, "instructions") && r.value.bio == Optional(data, "bio") &&
                      r.value.traits == Optional(data, "traits") &&
                      r.value.messageExamples == Optional(data, "message_examples") &&
                      r.value.topics == Optional(data, "topics")
    ensures r.Ok? ==> r.value.postParameters == Defaulted(data, "post_parameters", DefaultPostParameters)
    ensures r.Ok? ==> r.value.platformSettings == Defaulted(data, "platform_settings", EmptyObject) &&
                      r.value.responding == Defaulted(data, "responding", DefaultResponding) &&
                      r.value.plugins == Defaulted(data, "plugins", EmptyObject) &&
                      r.value.knowledgeModules == Defaulted(data, "knowledge_modules", EmptyObject)
  {
    var given := if Truthy(nameId) then nameId.value else FileNameId(path);
    if "name" !in data then Err(KeyError)
    else
      var name := data["name"];
      if given == "" && !name.JStr? then Err(AttributeError)
      else if "twitter_username" !in data || "intro" !in data || "lore" !in data then Err(KeyError)
      else
        Ok(CharacterFile(
          name, if given == "" then Lower(name.s) else given,
          data["twitter_username"], data["intro"], data["lore"],
          Optional(data, "instructions"), Optional(data, "bio"), Optional(data, "traits"),
          Optional(data, "moods"), Optional(data, "post_examples"),
          Defaulted(data, "post_parameters", DefaultPostParameters),
          Optional(data, "message_examples"), Optional(data, "topics"),
          Defaulted(data, "plugins", EmptyObject),
          Defaulted(data, "platform_settings", EmptyObject),
          Defaulted(data, "responding", DefaultResponding),
          Defaulted(data, "knowledge_modules", EmptyObject)))
  }

  // ------------------------------------------------------- Python helpers

  /** Python's `s[:k]`, where a negative `k` counts from the end. */
  function SliceTo<T>(s: seq<T>, k: int): (r: seq<T>)
    ensures r <= s
    ensures k >= 0 ==> |r| == if k <= |s| then k else |s|
    ensures k < 0 ==> |r| == if -k <= |s| then |s| + k else 0
  {
    if k >= 0 then (if k <= |s| then s[..k] else s)
    else if -k <= |s| then s[..|s| + k] else []
  }

  function Swap<T>(s: seq<T>, i: nat, j: nat): (r: seq<T>)
    requires i < |s| && j < |s|
    ensures |r| == |s| && r[i] == s[j] && r[j] == s[i]
    ensures forall k :: 0 <= k < |s| && k != i && k != j ==> r[k] == s[k]
  {
    s[i := s[j]][j := s[i]]
  }

  /** A swap permutes. */
  lemma SwapPermutes<T>(s: seq<T>, i: nat, j: nat)
    requires i < |s| && j < |s|
    ensures multiset(Swap(s, i, j)) == multiset(s)
  {
  }

  /** The position drawn for index `i`, from 0 to `i`. */
  function Pick(draw: nat -> nat, i: nat): (j: nat)
    ensures j <= i
  {
    draw(i) % (i + 1)
  }

  /** `random.shuffle`: for i from the last index down to 1, position i is
      swapped with a position drawn from 0 to i. */
  function ShuffledFrom<T>(s: seq<T>, i: nat, draw: nat -> nat): seq<T>
    requires i < |s|
    decreases i
  {
    if i == 0 then s else ShuffledFrom(Swap(s, i, Pick(draw, i)), i - 1, draw)
  }

  function Shuffled<T>(s: seq<T>, draw: nat -> nat): seq<T> {
    if s == [] then s else ShuffledFrom(s, |s| - 1, draw)
  }

  /** Whatever the draws, shuffling permutes. */
  lemma {:induction false} ShuffledFromPermutes<T>(s: seq<T>, i: nat, draw: nat -> nat)
    requires i < |s|
    ensures multiset(ShuffledFrom(s, i, draw)) == multiset(s) && |ShuffledFrom(s, i, draw)| == |s|
    decreases i
  {
    if i > 0 {
      SwapPermutes(s, i, Pick(draw, i));
      ShuffledFromPermutes(Swap(s, i, Pick(draw, i)), i - 1, draw);
    }
  }

  lemma ShuffledPermutes<T>(s: seq<T>, draw: nat -> nat)
    ensures multiset(Shuffled(s, draw)) == multiset(s) && |Shuffled(s, draw)| == |s|
  {
    if s != [] {
      ShuffledFromPermutes(s, |s| - 1, draw);
    }
  }

  /** The shuffle, in place on an array. */
  method Shuffle<T>(a: array<T>, draw: nat -> nat)
    modifies a
    ensures a[..] == Shuffled(old(a[..]), draw)
  {
    if a.Length == 0 {
      return;
    }
    var i := a.Length - 1;
    while i > 0
      invariant 0 <= i < a.Length
      invariant ShuffledFrom(a[..], i, draw) == Shuffled(old(a[..]), draw)
    {
      var j := Pick(draw, i);
      ghost var before := a[..];
      assert ShuffledFrom(before, i, draw) == ShuffledFrom(Swap(before, i, j), i - 1, draw);
      a[i], a[j] := a[j], a[i];
      assert a[..] == Swap(before, i, j);
      i := i - 1;
    }
  }

  // ---------------------------------------------------- examples and moods

  /** `stored.get(platform, {}).get(timeOfDay, [])`. */
  function ExamplesAt(stored: Json, platform: string, timeOfDay: string): (r: Result<Json>)
    ensures r.Ok? ==> stored.JObj?
    ensures r.Ok? && platform in stored.fields ==> stored.fields[platform].JObj?
  {
    var forPlatform := Get(stored, platform, EmptyObject);
    if forPlatform.Err? then forPlatform else Get(forPlatform.value, timeOfDay, JArr([]))
  }

  /** The stored examples with the shuffled list written back in its place,
      when the list came from them. */
  function StoreBack(stored: Json, platform: string, timeOfDay: string, shuffled: seq<Json>): (r: Json)
    requires ExamplesAt(stored, platform, timeOfDay).Ok?
    ensures r.JObj? && r.fields.Keys == stored.fields.Keys
    ensures forall p :: p in stored.fields && p != platform ==> r.fields[p] == stored.fields[p]
    ensures platform in stored.fields && timeOfDay in stored.fields[platform].fields ==>
              r.fields[platform] == JObj(stored.fields[platform].fields[timeOfDay := JArr(shuffled)])
    ensures !(platform in stored.fields && timeOfDay in stored.fields[platform].fields) ==> r == stored
  {
    var fields := stored.fields;
    if platform in fields && timeOfDay in fields[platform].fields then
      JObj(fields[platform := JObj(fields[platform].fields[timeOfDay := JArr(shuffled)])])
    else stored
  }

  /** The examples a pick returns and the examples stored afterwards. With
      a nonzero pick the list is shuffled, stored back when it came from the
      stored examples, and cut to the pick; with pick 0 it is returned as is.
      Reading from anything but a dictionary raises. The shuffle only swaps
      when there are two items or more: a longer string cannot be assigned
      to and a dictionary of two entries or more is indexed by a position it
      does not have as a key; a shorter string is then sliced, and anything
      else cannot be. */
  function PickExamples(stored: Option<Json>, platform: string, timeOfDay: string, pick: int,
                        draw: nat -> nat): (out: (Option<Json>, Result<Json>))
    ensures stored.None? ==> out == (stored, Err(AttributeError))
    ensures pick == 0 || out.1.Err? ==> out.0 == stored
    ensures out.1.Ok? ==> stored.Some? && ExamplesAt(stored.value, platform, timeOfDay).Ok?
    ensures out.1.Ok? && pick == 0 ==> out.1 == ExamplesAt(stored.value, platform, timeOfDay)
    ensures out.1.Ok? && pick != 0 ==>
              var all := ExamplesAt(stored.value, platform, timeOfDay).value;
              (all.JArr? || (all.JStr? && |all.s| <= 1)) &&
              (all.JStr? ==> out == (stored, Ok(JStr(SliceTo(all.s, pick))))) &&
              (all.JArr? ==>
                 out.1.value.JArr? &&
                 out.1.value.items == SliceTo(Shuffled(all.items, draw), pick) &&
                 multiset(Shuffled(all.items, draw)) == multiset(all.items) &&
                 out.0 == Some(StoreBack(stored.value, platform, timeOfDay, Shuffled(all.items, draw))))
    ensures stored.Some? && pick != 0 && ExamplesAt(stored.value, platform, timeOfDay).Ok? ==>
              var all := ExamplesAt(stored.value, platform, timeOfDay).value;
              (all.JArr? || (all.JStr? && |all.s| <= 1) ==> out.1.Ok?) &&
              (all.JObj? && |all.fields| >= 2 ==> out.1 == Err(KeyError)) &&
              (!all.JArr? && !(all.JStr? && |all.s| <= 1) && !(all.JObj? && |all.fields| >= 2) ==>
                 out.1 == Err(TypeError))
  {
    if stored.None? then (stored, Err(AttributeError))
    else
      var all := ExamplesAt(stored.value, platform, timeOfDay);
      if all.Err? then (stored, Err(all.error))
      else if pick == 0 then (stored, all)
      else if all.value.JStr? && |all.value.s| <= 1 then (stored, Ok(JStr(SliceTo(all.value.s, pick))))
      else if all.value.JObj? && |all.value.fields| >= 2 then (stored, Err(KeyError))
      else if !all.value.JArr? then (stored, Err(TypeError))
      else
        var shuffled := Shuffled(all.value.items, draw);
        ShuffledPermutes(all.value.items, draw);
        (Some(StoreBack(stored.value, platform, timeOfDay, shuffled)), Ok(JArr(SliceTo(shuffled, pick))))
  }

  class SiaCharacter {
    const name: Option<string>
    const nameId: string
    const twitterUsername: Option<string>
    const moods: Option<Json>
    var postExamples: Option<Json>
    const platformSettings: Json
    const responding: Json

    constructor (name: Option<string>, nameId: string, twitterUsername: Option<string>, moods: Option<Json>,
                 postExamples: Option<Json>, platformSettings: Json, responding: Json)
      ensures this.name == name && this.nameId == nameId && this.twitterUsername == twitterUsername
      ensures this.moods == moods && this.postExamples == postExamples
      ensures this.platformSettings == platformSettings && this.responding == responding
    {
      this.name := name;
      this.nameId := nameId;
      this.twitterUsername := twitterUsername;
      this.moods := moods;
      this.postExamples := postExamples;
      this.platformSettings := platformSettings;
      this.responding := responding;
    }

    /** The mood listed for the time of day, the current bucket when none is
        given; a time of day without an entry gets the text "morning". */
    function GetMood(timeOfDay: Option<string>, hour: nat): (r: Result<Json>)
      requires hour < 24
      ensures moods.None? || !moods.value.JObj? ==> r == Err(AttributeError)
      ensures moods.Some? && moods.value.JObj? ==>
                var t := if timeOfDay.Some? then timeOfDay.value else Settings.TimeOfDay(hour);
                r.Ok? && (t in moods.value.fields ==> r.value == moods.value.fields[t]) &&
                (t !in moods.value.fields ==> r.value == JStr("morning"))
    {
      if moods.None? then Err(AttributeError)
      else Get(moods.value, if timeOfDay.Some? then timeOfDay.value else Settings.TimeOfDay(hour), JStr("morning"))
    }

    method GetPostExamples(platform: string, timeOfDay: Option<string>, pick: int, hour: nat, draw: nat -> nat)
      returns (r: Result<Json>)
      requires hour < 24
      modifies this
      ensures (postExamples, r) ==
                PickExamples(old(postExamples), platform,
                             if timeOfDay.Some? then timeOfDay.value else Settings.TimeOfDay(hour), pick, draw)
    {
      var t := if timeOfDay.Some? then timeOfDay.value else Settings.TimeOfDay(hour);
      if postExamples.None? {
        return Err(AttributeError);
      }
      var all := ExamplesAt(postExamples.value, platform, t);
      if all.Err? {
        return Err(all.error);
      }
      if pick == 0 {
        return all;
      }
      if all.value.JStr? && |all.value.s| <= 1 {
        return Ok(JStr(SliceTo(all.value.s, pick)));
      }
      if all.value.JObj? && |all.value.fields| >= 2 {
        return Err(KeyError);
      }
      if !all.value.JArr? {
        return Err(TypeError);
      }
      var items := all.value.items;
      var a := new Json[|items|](i requires 0 <= i < |items| => items[i]);
      assert a[..] == items;
      Shuffle(a, draw);
      var shuffled := a[..];
      var fields := postExamples.value.fields;
      if platform in fields && t in fields[platform].fields {
        postExamples := Some(JObj(fields[platform := JObj(fields[platform].fields[t := JArr(shuffled)])]));
      }
      return Ok(JArr(SliceTo(shuffled, pick)));
    }
  }

  /** `SiaCharacter(...)` without a character file: building the prompts
      reads the mood, which raises when there are no moods. */
  method Create(name: Option<string>, nameId: Option<string>, twitterUsername: Option<string>, moods: Option<Json>,
                postExamples: Option<Json>, platformSettings: Json, responding: Json, hour: nat)
    returns (r: Result<SiaCharacter>)
    requires hour < 24
    ensures r.Err? <==> ArgsNameId(name, nameId).Err? || moods.None? || !moods.value.JObj?
    ensures r.Err? ==> r.error == AttributeError
    ensures r.Ok? ==> fresh(r.value) && r.value.nameId == ArgsNameId(name, nameId).value &&
                      r.value.name == name && r.value.twitterUsername == twitterUsername &&
                      r.value.moods == moods && r.value.postExamples == postExamples &&
                      r.value.platformSettings == platformSettings && r.value.responding == responding
  {
    var id := ArgsNameId(name, nameId);
    if id.Err? {
      return Err(id.error);
    }
    var c := new SiaCharacter(name, id.value, twitterUsername, moods, postExamples, platformSettings, responding);
    if c.GetMood(None, hour).Err? {
      return Err(AttributeError);
    }
    return Ok(c);
  }
}
