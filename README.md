# Sia agent core, modelled in Dafny

Sia is an agent framework for social-media characters. A character is loaded from JSON (name, moods, post examples, per-platform settings). It keeps every message it sees or sends in a relational store: message rows, a message–character link table, a per-character settings bag and a per-user "social memory" with a running opinion of each user. It talks to the world through platform clients. The Twitter client posts on a schedule, replies to mentions under an hourly cap and engages with search results. The Telegram client stores group messages, answers when addressed and posts to a chat on a schedule. A small queue and a reasoning step feed scheduled work to the clients.

This project models that core over pure values and proves properties of the model:

- `Store` models the database tables as a `Db` value. It also models the store's operations (`get_messages`, `add_message`, `clear_messages`, character settings) as functions from a `Db` to a new `Db` and a result.
- `Memory.SiaMemory` is the store object. It is a class with those tables as fields, and each method is proved equal to the `Store` or `Social` function it performs.
- `Social` models the social memory: the 20-entry history window, the refresh cadence and how an opinion is formed and cleaned.
- `Twitter` and `Telegram` model the platform clients' rules: what gets stored, under which id, when a post is due, how many replies are sent and which search window is used. Each also has a class whose methods are tied to those functions.
- `Character`, `Settings`, `Queue` and `Reasoning` model the character file, the posting conditions, the in-memory queue and the posting scan.
- `Records`, `Config`, `Text` and `Sorting` hold the value schemas, dictionary lookups, the Python string built-ins the code relies on (`strip`, `split`, `lower`, `str(int)`) and the ordering used by queries.

The language model, the moderation call, the platform APIs, the clock and the random source are not modelled. Each one is a function parameter (an oracle), so every property holds for whatever they return.

## Model

| member | source | states |
|---|---|---|
| Records.Generated | sia/memory/schemas.py:7-15 | a freshly generated message carries the given content, platform and author, no conversation, reply target or metadata, and is not flagged |
| Records.Stored | sia/memory/schemas.py:21-24 | a stored message keeps every field of the generated one and adds its id and posting time |
| Records.SelectById | sia/memory/schemas.py:39-40 | the result is the first message in the list with that id, and it is None exactly when no message has that id |
| Records.SelectByIdUnique | sia/memory/schemas.py:39-40 | when ids are unique, looking a member of the list up by its id returns that member |
| Records.PrintableListAppend | sia/memory/schemas.py:33-37 | printing a concatenation of lists is printing each list in turn |
| Records.PrintableListLength | sia/memory/memory.py:245-259 | the printed list holds one separator per message plus each message's text |
| Config.Get | sia/clients/telegram/telegram_client_aiogram.py:199-216 | `.get(key, default)` on a dictionary yields the stored value or the default, and on anything else raises AttributeError |
| Config.Lookup | sia/clients/twitter/twitter_official_api_client.py:721-723 | a chain of `.get(..., {})` calls fails with AttributeError exactly when some intermediate value is not a dictionary |
| Config.LookupAbsent | sia/clients/twitter/twitter_official_api_client.py:895-900 | a missing first key yields the default |
| Config.EmptyLookup | sia/clients/twitter/twitter_official_api_client.py:895-900 | every lookup in an empty settings object yields the default |
| Config.LookupSibling | sia/clients/twitter/twitter_official_api_client.py:946-962 | when one key under a path can be read, every sibling key under the same path can be read |
| Config.JInt | sia/clients/twitter/twitter_official_api_client.py:738-741 | a JSON number or boolean used as an int succeeds (True is 1), and anything else raises TypeError |
| Config.JText | sia/clients/telegram/telegram_client_aiogram.py:199-216 | a JSON string or null read as optional text succeeds, and anything else is rejected |
| Config.JFormat | sia/clients/telegram/telegram_client_aiogram.py:167-176 | formatting a JSON string gives the string, and formatting a number gives a decimal that parses back to it |
| Config.FilterArg | sia/clients/telegram/telegram_client_aiogram.py:213-221 | a query filter is applied exactly when its argument is truthy |
| Sorting.SortByKeyCorrect | sia/memory/memory.py:101-107 | the `order_by(wen_posted)` ordering is sorted by the key and is a permutation of its input |
| Sorting.SortPermutes | sia/memory/memory.py:101-111 | sorting keeps the multiset of any projection of the rows |
| Sorting.ShuffleIsPermutation | sia/clients/twitter/twitter_official_api_client.py:817 | sorting by random keys is a permutation of the input |
| Text.StripEnds | sia/memory/memory.py:473 | `strip()` leaves no whitespace at either end |
| Text.StripSlice | sia/memory/memory.py:473 | what `strip()` keeps is one contiguous slice of its input |
| Text.SplitJoinSpace | sia/memory/memory.py:473-475 | `split()` inverts `" ".join` on whitespace-free words |
| Text.JoinSpaceEnds | sia/memory/memory.py:473-475 | joining words with spaces gives no whitespace at either end, and the result is empty only for no words |
| Text.JoinSpaceSingleSpaced | sia/memory/memory.py:475 | in words joined by `" ".join`, every whitespace character is one space between two characters that are not whitespace |
| Text.Lower | sia/character.py:17-22 | ASCII `lower()`: the length is kept, no capital letter remains, each capital becomes its own small letter and every other character is kept |
| Text.LowerIdempotent | sia/character.py:17-22 | lowering twice is lowering once |
| Text.ParseIntOfDecimal | sia/clients/telegram/telegram_client_aiogram.py:93-106 | `int(str(i))` gives back `i` |
| Text.DecimalInjective | sia/clients/telegram/telegram_client_aiogram.py:156 | two integers with the same decimal text are equal |
| Text.LastSegmentAfter | sia/clients/telegram/telegram_client_aiogram.py:124 | `split(sep)[-1]` of `a + sep + b` is `b` when `b` has no separator |
| Text.FirstSegmentBefore | sia/clients/telegram/telegram_client_aiogram.py:137 | the first segment of `a + sep + b` is `a` when `a` has no separator |
| Text.MaxLexIsMaximum | sia/clients/twitter/twitter_official_api_client.py:148-164 | the string maximum is an element of the list and no element is above it in string order |
| Text.LexTotal | sia/clients/twitter/twitter_official_api_client.py:148-164 | string order relates any two strings |
| Text.LexTransitive | sia/clients/twitter/twitter_official_api_client.py:148-164 | string order is transitive |
| Text.LexAntisymmetric | sia/clients/twitter/twitter_official_api_client.py:148-164 | string order is antisymmetric |
| Store.Filter | sia/memory/memory.py:69-99 | filtering keeps a sub-list of the rows |
| Store.FilterCounts | sia/memory/memory.py:69-99 | each row is kept exactly as often as it occurs when it matches every active filter, and dropped otherwise |
| Store.GetMessages | sia/memory/memory.py:49-111 | the result holds exactly the rows matching the filters (character link, id, platform, author, not_author, conversation, reply target, from time, is_post, flagged), ordered by posting time, newest first when no sort column is given |
| Store.GetMessagesCounts | sia/memory/memory.py:49-111 | the result is a permutation of the matching rows: each keeps its multiplicity |
| Store.AddMessage | sia/memory/memory.py:113-181 | an existing id returns the stored row, and a link is added only when the id has none (links are keyed by message id). A new id inserts one row whose conversation defaults to its own id, plus its link. An orphan link for a missing row makes the insert fail with IntegrityError and leaves the tables unchanged |
| Store.AddMessageIdempotent | sia/memory/memory.py:113-145 | adding the same id twice changes nothing the second time and returns the same row |
| Store.AddMessageKeepsValid | sia/memory/models_db.py:12-47 | adding a message keeps the tables consistent: unique message ids, unique settings ids, and each social memory stored under its own key |
| Store.Unlinked | sia/memory/memory.py:198-210 | the bulk delete removes exactly the rows linked to the character |
| Store.ClearMessages | sia/memory/memory.py:194-217 | without foreign-key enforcement the character's rows go and every link stays. With enforcement the delete fails with IntegrityError whenever a linked row exists, and nothing changes |
| Store.ClearMessagesScope | sia/memory/memory.py:194-217 | after clearing, queries for that character find nothing and queries for other characters are unchanged |
| Store.ClearedIdCannotReturn | sia/memory/memory.py:207-210 | (as written) re-adding a cleared message id fails, because its orphan link survives |
| Store.ClearMessagesCascade | sia/memory/models_db.py:43-47 | the cascading clear removes the character's rows and their links and keeps everything else |
| Store.ClearCascadeAllowsReAdd | sia/memory/memory.py:194-217 | (corrected) after a cascading clear a cleared id can be added again |
| Store.FirstSettings | sia/memory/memory.py:264-268 | the first settings row with the character's name id, or None exactly when there is none |
| Store.GetCharacterSettings | sia/memory/memory.py:261-284 | returns the existing row unchanged, or inserts and returns an empty row for the character. The insert fails with IntegrityError when the new row's id is already taken |
| Store.UpdateCharacterSettings | sia/memory/memory.py:286-294 | every row of the character is replaced by the given row and the others are untouched. A duplicated id makes the update fail and leaves the table unchanged |
| Store.Replaced | sia/memory/memory.py:290-294 | the bulk update replaces exactly the rows with the character's name id |
| Store.SettingsReadBack | sia/memory/memory.py:261-294 | settings written with update are what the next read returns |
| Store.ReadRow | sia/memory/memory.py:261-284 | the row read sits in the settings table, and the table keeps unique ids and at most one row per character |
| Store.DuplicateSettingsUpdateFails | sia/memory/memory.py:286-294 | two rows for one character make the update a primary-key clash |
| Store.OnlyRow | sia/memory/memory.py:264-268 | with at most one row per character, the row found is the only one |
| Store.FirstSettingsOnly | sia/memory/memory.py:264-268 | the only row of a character is the one the first-row lookup finds |
| Memory.SiaMemory.constructor | sia/memory/memory.py:25-47 | a new store has empty tables and the character's name, name id and usernames |
| Memory.SiaMemory.AddMessage | sia/memory/memory.py:113-181 | updates the tables and returns exactly as `Store.AddMessage` |
| Memory.SiaMemory.GetConversationIds | sia/memory/memory.py:183-192 | returns each conversation id that some message belongs to without being its root, each once |
| Memory.SiaMemory.ClearMessages | sia/memory/memory.py:194-217 | updates the tables and returns exactly as `Store.ClearMessages` |
| Memory.SiaMemory.GetCharacterSettings | sia/memory/memory.py:261-284 | updates the tables and returns exactly as `Store.GetCharacterSettings` |
| Memory.SiaMemory.UpdateCharacterSettings | sia/memory/memory.py:286-294 | updates the tables and returns exactly as `Store.UpdateCharacterSettings` |
| Memory.SiaMemory.UpdateSocialMemory | sia/memory/memory.py:296-430 | updates the tables and returns exactly as `Social.UpdateSocialMemory` |
| Memory.SiaMemory.BuildHistory | sia/memory/memory.py:339-369 | the loop builds the same history as `Social.BuildHistory` |
| Memory.AssistantEntries | sia/memory/memory.py:363-368 | the loop builds one assistant entry per response, in order |
| Memory.StepMemory | sia/memory/memory.py:392-423 | the in-place update of an existing memory is `Social.Step` |
| Memory.UnlinkedNone | sia/memory/memory.py:198-210 | when no row is linked to the character the bulk delete removes nothing |
| Memory.AssistantEntriesAppend | sia/memory/memory.py:363-368 | one more response adds exactly one assistant entry at the end |
| Social.LastWindow | sia/memory/memory.py:384 | `history[-20:]` is the last up-to-20 entries |
| Social.WindowOfAppend | sia/memory/memory.py:399 | trimming before or after an append gives the same window |
| Social.CleanOpinion | sia/memory/memory.py:473-475 | the opinion is stripped. When it starts with an intro phrase, its first two words are dropped, and the remaining words, in order, are what is left, each whitespace a single space between two words |
| Social.GenerateOpinion | sia/memory/memory.py:432-482 | the oracle's answer is cleaned. A failed call falls back to the previous opinion or "Unable to form opinion", and the oracle sees "No previous opinion" when there is none |
| Social.FirstIndexOf | sia/memory/memory.py:404-409 | the index of the first entry with the marked id, or -1 when none has it |
| Social.Unprocessed | sia/memory/memory.py:404-412 | the entries after the last processed mark, or all of them when the mark is unset or no longer in the history |
| Social.Step | sia/memory/memory.py:392-423 | one interaction appends the entry to the 20-entry window, counts it and stamps the time. The opinion is refreshed and the mark moved exactly when at least 10 entries are unprocessed, and an unset mark is set |
| Social.StepCadence | sia/memory/memory.py:404-423 | with fresh message ids, the opinion is refreshed once every 10 interactions after the mark |
| Social.AssistantEntries | sia/memory/memory.py:363-368 | one assistant entry per response, with its id and content |
| Social.BuildHistoryAppend | sia/memory/memory.py:349-369 | the initial history of a longer message list is that of the shorter one followed by the new message's chunk |
| Social.BuildHistoryUsers | sia/memory/memory.py:349-369 | the user entries of the initial history are exactly the user's past messages, in order |
| Social.UserEntriesAppend | sia/memory/memory.py:349-369 | selecting user entries distributes over concatenation |
| Social.NoUserEntries | sia/memory/memory.py:363-368 | responses contribute no user entries |
| Social.InitialMemory | sia/memory/memory.py:319-390 | (as written) a new memory is built from the user's history, marked at the current message. It fails with NameError exactly when the user has no past messages, because `initial_opinion` is then unbound |
| Social.InitialMemoryFixed | sia/memory/memory.py:330-390 | (corrected) a new memory always exists. Without history it holds just the current message with no opinion and one interaction; otherwise it equals the as-written memory |
| Social.Record | sia/memory/memory.py:392-426 | an existing memory is stepped and written back under its key, and a failure leaves the tables unchanged |
| Social.UpdateSocialMemory | sia/memory/memory.py:296-430 | the bot's own username is skipped with None. Otherwise the user's memory is created or stepped and stored under (character, user, platform), and the message tables are untouched |
| Social.UpdateSocialMemoryFixed | sia/memory/memory.py:296-430 | (corrected) never fails, always stores a memory for another user, and agrees with the as-written update whenever that one succeeds |
| Social.NewUserWithoutHistoryFails | sia/memory/memory.py:331-386 | (as written) the first message of a user with no history raises NameError |
| Social.GetSocialMemory | sia/memory/memory.py:484-503 | returns the memory stored under (character, user, platform), or None when there is none |
| Social.UpdateThenRead | sia/memory/memory.py:296-503 | after a successful update, reading the memory back gives what the update returned, and the tables stay consistent |
| Character.FileNameId | sia/character.py:13-16 | the name id taken from a file name has no directory and no extension |
| Character.FileNameIdOfPath | sia/character.py:13-16 | for `dir/base.ext` the name id is `base` |
| Character.ArgsNameId | sia/character.py:17-22 | an explicit name id wins, otherwise the lower-cased name. It raises AttributeError when both are missing |
| Character.LoadFromJson | sia/character.py:70-92 | a missing required key raises KeyError. Otherwise the fields are copied, optional ones default to the documented defaults, and the name id comes from the argument, the file name or the lower-cased name, in that order |
| Character.SliceTo | sia/character.py:122 | `s[:k]` is a prefix of the right length for positive and negative `k` |
| Character.Swap | sia/character.py:121 | swapping exchanges two positions and keeps the rest |
| Character.SwapPermutes | sia/character.py:121 | a swap is a permutation |
| Character.Pick | sia/character.py:121 | the drawn position is at most the current one |
| Character.ShuffledFromPermutes | sia/character.py:121 | the shuffle is a permutation of the same length |
| Character.ShuffledPermutes | sia/character.py:121 | shuffling a list is a permutation of the same length |
| Character.Shuffle | sia/character.py:121 | the in-place shuffle of the array produces the specified shuffled sequence |
| Character.ExamplesAt | sia/character.py:119 | reading examples needs a dictionary at each level |
| Character.StoreBack | sia/character.py:119-121 | shuffling in place writes the shuffled list back under the same platform and time of day and changes nothing else |
| Character.PickExamples | sia/character.py:108-128 | missing post examples raise AttributeError. Without a pick count the examples are returned unchanged. With one, a list is shuffled in the stored object and its first `k` returned; a string of at most one character is sliced; a dictionary of two entries or more raises KeyError from the shuffle; anything else raises TypeError |
| Character.SiaCharacter.constructor | sia/character.py:12-58 | the character keeps the given fields |
| Character.SiaCharacter.GetMood | sia/character.py:95-105 | the mood for the given or current time of day, and AttributeError when there are no moods |
| Character.SiaCharacter.GetPostExamples | sia/character.py:108-128 | updates the stored examples and returns exactly as `Character.PickExamples` |
| Character.Create | sia/character.py:12-58 | construction fails exactly when no name id can be derived or the moods are missing. Otherwise the character holds the given fields and the derived name id |
| Settings.HourOf | sia/settings/settings.py:29-38 | the hour of a timestamp is below 24 |
| Settings.TimeOfDay | sia/settings/settings.py:29-38 | morning is hours 5-11, afternoon 12-16, evening 17-20 and night the rest |
| Settings.SelectCondition | sia/settings/settings.py:52-63 | returns the first condition that applies now and in this time bucket, None when none does, and AttributeError when a condition without a time is reached first |
| Settings.PostingChoice | sia/settings/settings.py:40-66 | disabled settings, or a next post more than 30 seconds away, give None. Otherwise the conditions are scanned, and missing conditions raise AttributeError |
| Settings.ShouldPostNow | sia/settings/settings.py:40-66 | (as written) the scan uses the time bucket of the import-time default clock |
| Settings.ShouldPostNowAt | sia/settings/settings.py:40-66 | (corrected) a chosen condition's time of day occurs in the name of the current time's bucket, and its time has come |
| Settings.ImportTimeBucket | sia/settings/settings.py:29-58 | (as written) with the module imported in the morning, a check at night skips a night-only condition and falls back to the general settings, while the corrected check picks it |
| Settings.NotContainsShort | sia/settings/settings.py:58 | a bucket name never contains a longer name |
| Queue.IndexOfId | sia/queue/memory.py:15-19 | the position the update loop stops at: the first item carrying the id, every earlier item carrying another; -1 exactly when no item carries it |
| Queue.UpdateFirst | sia/queue/memory.py:15-19 | the first item with the same id is replaced and the rest kept. With no such item the queue is unchanged |
| Queue.RunKeepsLength | sia/queue/main.py:20-23 | running the queue keeps its length |
| Queue.RunUniqueUnchanged | sia/queue/main.py:20-23 | with unique ids, running the queue leaves it unchanged |
| Queue.UpdateFirstItself | sia/queue/memory.py:15-19 | updating an item with itself changes nothing |
| Queue.RunWithSharedId | sia/queue/main.py:20-23 | two items sharing an id end up both equal to the later one |
| Queue.SiaQueueMemory.constructor | sia/queue/memory.py:5-7 | a new queue is empty |
| Queue.SiaQueueMemory.AddItem | sia/queue/memory.py:9-10 | appends the item |
| Queue.SiaQueueMemory.GetItems | sia/queue/memory.py:12-13 | returns the queue |
| Queue.SiaQueueMemory.UpdateItem | sia/queue/memory.py:15-19 | the loop replaces the first item with that id, as `Queue.UpdateFirst` |
| Queue.SiaQueue.constructor | sia/queue/main.py:7-9 | a new queue has its own empty memory |
| Queue.SiaQueue.AddItem | sia/queue/main.py:11-12 | appends the item to the memory |
| Queue.SiaQueue.GetItemsToExecute | sia/queue/main.py:14-15 | returns every queued item |
| Queue.SiaQueue.ExecuteItem | sia/queue/main.py:17-18 | executing an item writes it back by id |
| Queue.SiaQueue.Run | sia/queue/main.py:20-23 | executes each item in order, with the result specified by `Queue.RunFrom` |
| Reasoning.ScanAsWritten | sia/reasoning/main.py:11-18 | (as written) the scan succeeds exactly when no client is due. A due client raises ValidationError, because the queue item lacks required fields, and a client without settings raises AttributeError |
| Reasoning.QuietShift | sia/reasoning/main.py:11-18 | a client that is not due does not change the outcome for the rest |
| Reasoning.PostingItems | sia/reasoning/main.py:11-18 | (corrected) items are built exactly when every client's settings can be read |
| Reasoning.PostingItemsShape | sia/queue/schemas.py:6-10 | (corrected) one complete item per due client, each scheduled and created now with the posting action |
| Reasoning.Then | sia/reasoning/main.py:11-18 | accumulated items precede the rest, and a failure passes through |
| Reasoning.PostingItemsStep | sia/reasoning/main.py:11-18 | one scan step adds an item exactly for a due client |
| Reasoning.SiaReasoning.constructor | sia/reasoning/main.py:8-9 | the reasoning step holds its queue |
| Reasoning.SiaReasoning.AddClientPosting | sia/reasoning/main.py:11-18 | (as written) returns the as-written scan result and leaves the queue as it was |
| Reasoning.SiaReasoning.AddClientPostingFixed | sia/reasoning/main.py:11-18 | (corrected) appends one complete item per due client, and fails with AttributeError when a client's settings cannot be read, keeping what was already queued |
| Twitter.TweetToMessage | sia/clients/twitter/twitter_official_api_client.py:133-146 | a tweet becomes a message with the tweet's text, the author's username, its conversation id in decimal and no flag |
| Twitter.GetUserById | sia/clients/twitter/twitter_official_api_client.py:175-181 | the first included user with that id, or None exactly when none has it |
| Twitter.MessageIds | sia/clients/twitter/twitter_official_api_client.py:148-164 | the ids of the replies, in order |
| Twitter.LastRetrievedReplyId | sia/clients/twitter/twitter_official_api_client.py:148-164 | the since-id is the largest stored reply id in string order, and None when none is stored or the largest is the text "None" |
| Twitter.ToStore | sia/clients/twitter/twitter_official_api_client.py:222-266 | a saved tweet is flagged exactly in testing mode |
| Twitter.SaveTweet | sia/clients/twitter/twitter_official_api_client.py:222-266 | a tweet already stored is returned as is. A new one is stored once with its type and testing flag, and is skipped when its author is unknown |
| Twitter.SaveTweetStored | sia/clients/twitter/twitter_official_api_client.py:222-235 | saving a stored tweet returns the stored row and changes nothing |
| Twitter.SaveIncluded | sia/clients/twitter/twitter_official_api_client.py:393-416 | saving referenced tweets only appends rows and results |
| Twitter.SaveRefs | sia/clients/twitter/twitter_official_api_client.py:393-416 | saving every referenced tweet only appends rows and results |
| Twitter.SaveStep | sia/clients/twitter/twitter_official_api_client.py:268-418 | handling one tweet only appends rows and results |
| Twitter.SaveFrom | sia/clients/twitter/twitter_official_api_client.py:268-418 | handling the tweets only appends rows and results |
| Twitter.SaveTweets | sia/clients/twitter/twitter_official_api_client.py:268-418 | an empty response stores nothing. A response with tweets but no users raises KeyError and stores nothing. The store only grows |
| Twitter.ExcludeOwnInert | sia/clients/twitter/twitter_official_api_client.py:292-295 | (as written) excluding own tweets by comparing the user object with a string excludes nothing |
| Twitter.NotOwn | sia/clients/twitter/twitter_official_api_client.py:292-295 | (corrected) keeps only tweets whose author is not the character |
| Twitter.ExcludeOwnFixed | sia/clients/twitter/twitter_official_api_client.py:292-295 | (corrected) comparing usernames is saving the tweets not authored by the character |
| Twitter.RespondedPersists | sia/clients/twitter/twitter_official_api_client.py:327-341 | a tweet already answered stays answered as the store grows |
| Twitter.RespondedSkipped | sia/clients/twitter/twitter_official_api_client.py:327-341 | an answered tweet is skipped when answered tweets are excluded |
| Twitter.ExtendsTrans | sia/clients/twitter/twitter_official_api_client.py:222-418 | appending rows flagged as the mode demands composes |
| Twitter.RequestOf | sia/clients/twitter/twitter_official_api_client.py:82-114 | the request carries the message text and a reply target exactly when one is given |
| Twitter.PublishMessage | sia/clients/twitter/twitter_official_api_client.py:82-114 | publishing returns the created tweet id, None when the API call fails, and AttributeError when there is no message |
| Twitter.NextPostTime | sia/clients/twitter/twitter_official_api_client.py:721-723 | the next post time is the stored value, 0 when nothing is stored, and AttributeError when the entry is not a dictionary |
| Twitter.PostedBag | sia/clients/twitter/twitter_official_api_client.py:757-765 | after posting, the next post time is now plus the frequency in hours |
| Twitter.PostOnce | sia/clients/twitter/twitter_official_api_client.py:717-770 | a post run stores at most one new row, of type "post" and posted now; that row is the generated post under the id of the published tweet, so a falsy tweet id stores nothing |
| Twitter.PostLookups | sia/clients/twitter/twitter_official_api_client.py:717-723 | when the enabled flag can be read, so can the frequency |
| Twitter.PostGenerated | sia/clients/twitter/twitter_official_api_client.py:738-770 | a published post is stored under its tweet id with the generated content, and the settings move its next time forward; a falsy tweet id leaves messages and settings unchanged |
| Twitter.PostNotDue | sia/clients/twitter/twitter_official_api_client.py:717-729 | disabled posting, or a next time still ahead, posts nothing and only reads the settings |
| Twitter.PostMovesNextTime | sia/clients/twitter/twitter_official_api_client.py:738-765 | after a post the stored next post time is the posting time plus the frequency |
| Twitter.PostSpaced | sia/clients/twitter/twitter_official_api_client.py:717-770 | no second post happens within the frequency window of a post |
| Twitter.Printed | sia/clients/twitter/twitter_official_api_client.py:782 | an f-string of a present value prints that value |
| Twitter.MentionsQuery | sia/clients/twitter/twitter_official_api_client.py:782 | the mentions search is `to:user OR @user` |
| Twitter.CountRecent | sia/clients/twitter/twitter_official_api_client.py:797-803 | counts the replies sent in the last hour, and is zero exactly when none is that recent |
| Twitter.CountAuthored | sia/clients/twitter/twitter_official_api_client.py:843-849 | counts the character's own messages |
| Twitter.OwnInConversation | sia/clients/twitter/twitter_official_api_client.py:166-173 | counts the character's messages in one conversation |
| Twitter.SendReply | sia/clients/twitter/twitter_official_api_client.py:865-874 | the reply is stored as a "reply" row under the published tweet id, or under "None" when publishing failed with a response; it counts as created only with a tweet id, and a publish that raises fails |
| Twitter.Answer | sia/clients/twitter/twitter_official_api_client.py:819-874 | a missing candidate raises AttributeError. The loop halts exactly at an unflagged candidate once the cap is reached, and an answer is only sent below the cap |
| Twitter.AnswerRules | sia/clients/twitter/twitter_official_api_client.py:819-874 | a flagged mention is skipped. Below the cap, a conversation already holding three replies of the character, or a declined generation, is skipped; otherwise the reply is sent as `Twitter.SendReply`, and an answer implies all those checks passed |
| Twitter.SentAfter | sia/clients/twitter/twitter_official_api_client.py:797-838 | the hourly counter grows by the replies created only when counting is on |
| Twitter.Plus | sia/clients/twitter/twitter_official_api_client.py:814-885 | adding to a count keeps failures |
| Twitter.ReplyFrom | sia/clients/twitter/twitter_official_api_client.py:797-885 | the reply loop only grows the store and creates at most one reply per candidate. When each created reply is added to the hourly count (the corrected loop), a run sends at most the cap minus the replies already sent |
| Twitter.ReplyOnce | sia/clients/twitter/twitter_official_api_client.py:772-888 | a reply run only grows the store, and raises AttributeError when the responding settings are not a dictionary |
| Twitter.AnswerCreates | sia/clients/twitter/twitter_official_api_client.py:819-874 | an unflagged mention below the cap, in a conversation with fewer than three replies of the character, is answered by storing exactly the published reply |
| Twitter.ReplyCapIgnored | sia/clients/twitter/twitter_official_api_client.py:797-838 | (as written) with a cap of 1, two replies are sent in one run |
| Twitter.ReplyTwice | sia/clients/twitter/twitter_official_api_client.py:814-885 | two answered candidates make two replies while the counter stays unchanged |
| Twitter.ReplyLoopStep | sia/clients/twitter/twitter_official_api_client.py:814-885 | one loop iteration either stops with the loop's result or continues with the updated store and count |
| Twitter.Items | sia/clients/twitter/twitter_official_api_client.py:958-962 | iterating search queries yields a list's items, a string's characters, a dictionary's keys each once, and fails otherwise |
| Text.KeyList | sia/clients/twitter/twitter_official_api_client.py:958-962 | every key of a dictionary once, and nothing else |
| Twitter.Present | sia/clients/twitter/twitter_official_api_client.py:975-997 | the saved tweets, all present, in order |
| Twitter.LastTwenty | sia/clients/twitter/twitter_official_api_client.py:1007-1015 | `[-20:]` keeps the last up-to-20 messages |
| Twitter.SearchAll | sia/clients/twitter/twitter_official_api_client.py:957-981 | each query is searched once over the same window, in order, and the store only grows |
| Twitter.SearchAllStep | sia/clients/twitter/twitter_official_api_client.py:957-981 | searching a list of queries is searching the first and then the rest |
| Twitter.StoreEngagement | sia/clients/twitter/twitter_official_api_client.py:1047-1086 | the reply is stored under the random id in testing, else under the published tweet id or "None". A new row answers the chosen tweet in its conversation, is written by the character with the generated content, has no type and is flagged exactly in testing. A failure leaves the store unchanged, and a missing username always fails |
| Twitter.EngagementRefusedStoredAsNone | sia/clients/twitter/twitter_official_api_client.py:1047-1086 | a reply whose publishing failed with a response is still stored, under "None" |
| Twitter.Choose | sia/clients/twitter/twitter_official_api_client.py:639-708 | the decision fails exactly when some search result was not saved, and a chosen tweet is one of the candidates |
| Twitter.Round | sia/clients/twitter/twitter_official_api_client.py:940-1086 | every search of a round lies in that round's window, and the store only grows |
| Twitter.Rounds | sia/clients/twitter/twitter_official_api_client.py:938-940 | every search belongs to the window of one of the rounds |
| Twitter.RoundsStep | sia/clients/twitter/twitter_official_api_client.py:938-940 | the rounds are the first round followed by the rest |
| Twitter.EngageOnce | sia/clients/twitter/twitter_official_api_client.py:890-1086 | engagement only grows the store, flagged as the mode demands |
| Twitter.KeywordCall | sia/clients/twitter/twitter_official_api_client.py:1024-1029 | a call succeeds exactly when every keyword it names is a parameter of the callee, and fails with TypeError otherwise |
| Twitter.EngageCallRejected | sia/clients/twitter/twitter_official_api_client.py:1024-1029 | as written, engage's call to `generate_response` raises TypeError |
| Twitter.EngageCallFixed | sia/sia.py:247-253 | passing the earlier messages as the conversation is a call `generate_response` accepts |
| Twitter.EngageLookups | sia/clients/twitter/twitter_official_api_client.py:895-954 | when the enabled flag can be read, so can the frequency and the queries |
| Twitter.EngageDisabled | sia/clients/twitter/twitter_official_api_client.py:895-900 | disabled engagement searches and stores nothing |
| Twitter.EngageWaits | sia/clients/twitter/twitter_official_api_client.py:911-932 | while any twitter message linked to the character, stored mentions included, is younger than the search frequency, engagement searches and stores nothing |
| Twitter.EngageSearchesLastDay | sia/clients/twitter/twitter_official_api_client.py:946-954 | outside testing every search covers the last 24 hours, ending 23 seconds ago |
| Twitter.RoundOffline | sia/clients/twitter/twitter_official_api_client.py:1048-1069 | in testing a round never publishes |
| Twitter.RoundsOffline | sia/clients/twitter/twitter_official_api_client.py:1048-1069 | in testing no round publishes |
| Twitter.EngageTestingOffline | sia/clients/twitter/twitter_official_api_client.py:1048-1069 | in testing the outcome does not depend on the publisher |
| Twitter.SiaTwitter.constructor | sia/clients/twitter/twitter_official_api_client.py:28-80 | the client holds the store, the character and the testing mode |
| Twitter.SiaTwitter.SaveTweetToDb | sia/clients/twitter/twitter_official_api_client.py:222-266 | updates the store exactly as `Twitter.SaveTweet` |
| Twitter.SiaTwitter.SaveTweetsToDb | sia/clients/twitter/twitter_official_api_client.py:268-418 | the loop updates the store exactly as `Twitter.SaveTweets` |
| Twitter.SiaTwitter.SaveOne | sia/clients/twitter/twitter_official_api_client.py:281-416 | one loop iteration is `Twitter.SaveStep` |
| Twitter.SiaTwitter.Post | sia/clients/twitter/twitter_official_api_client.py:717-770 | updates the store exactly as `Twitter.PostOnce` |
| Twitter.SiaTwitter.Reply | sia/clients/twitter/twitter_official_api_client.py:772-888 | updates the store exactly as `Twitter.ReplyOnce` |
| Twitter.SiaTwitter.ReplyToAll | sia/clients/twitter/twitter_official_api_client.py:814-885 | the loop updates the store exactly as `Twitter.ReplyFrom` |
| Twitter.SiaTwitter.ReplyOne | sia/clients/twitter/twitter_official_api_client.py:814-885 | one iteration either ends the loop with its result or leaves the rest of the loop to do the same |
| Twitter.SiaTwitter.AnswerMention | sia/clients/twitter/twitter_official_api_client.py:819-874 | updates the store exactly as `Twitter.Answer` |
| Twitter.SiaTwitter.Engage | sia/clients/twitter/twitter_official_api_client.py:890-1086 | updates the store exactly as `Twitter.EngageOnce` |
| Twitter.SiaTwitter.RunRounds | sia/clients/twitter/twitter_official_api_client.py:938-1086 | the loop over rounds is `Twitter.Rounds` |
| Twitter.SiaTwitter.EngageRound | sia/clients/twitter/twitter_official_api_client.py:940-1086 | one round is `Twitter.Round` |
| Twitter.SiaTwitter.SearchQueries | sia/clients/twitter/twitter_official_api_client.py:957-981 | the loop over queries is `Twitter.SearchAll` |
| Twitter.SiaTwitter.StoreReply | sia/clients/twitter/twitter_official_api_client.py:1047-1086 | storing the engagement reply is `Twitter.StoreEngagement` |
| Telegram.AuthorOf | sia/clients/telegram/telegram_client_aiogram.py:100 | the author is the username when there is one, else the user id in decimal |
| Telegram.ToSiaMessage | sia/clients/telegram/telegram_client_aiogram.py:93-106 | the message keeps text, author and chat id as conversation, and the reply target when there is one. A missing sender raises AttributeError and missing text raises ValidationError |
| Telegram.InboundKeyRoundTrip | sia/clients/telegram/telegram_client_aiogram.py:156 | the message id can be read back from the stored key |
| Telegram.InboundKeyInjective | sia/clients/telegram/telegram_client_aiogram.py:156 | different messages get different stored keys |
| Telegram.ReplyTarget | sia/clients/telegram/telegram_client_aiogram.py:124 | no target for an empty reference, and ValueError when its last segment is not a number |
| Telegram.ReplyTargetOfKey | sia/clients/telegram/telegram_client_aiogram.py:124-137 | a plain id and a stored `chat-id` key both resolve to the id |
| Telegram.Publish | sia/clients/telegram/telegram_client_aiogram.py:108-145 | a sent message needs a message whose conversation is a chat id and a readable reply target, and yields a numeric id |
| Telegram.PublishReplyGoesBack | sia/clients/telegram/telegram_client_aiogram.py:181-184 | a reply goes to the original chat as a reply to the original message |
| Telegram.ShouldRespond | sia/clients/telegram/telegram_client_aiogram.py:167-176 | non-dictionary platform settings raise AttributeError, and a decision needs text |
| Telegram.ShouldRespondConfigured | sia/clients/telegram/telegram_client_aiogram.py:167-176 | the bot answers exactly when mentioned by its configured username or replied to |
| Telegram.ShouldRespondUnconfigured | sia/clients/telegram/telegram_client_aiogram.py:167-176 | without a configured username the bot answers a message containing "@<no_username>" or a reply to a user without a username |
| Telegram.HandleMessage | sia/clients/telegram/telegram_client_aiogram.py:147-195 | handling a message appends at most two rows after the existing ones; an unreadable message changes nothing, and with two new rows the first is the message under its chat key and the second a "reply" to a message that addresses the character |
| Telegram.HandleDisabledOnlyStores | sia/clients/telegram/telegram_client_aiogram.py:178-192 | with responding disabled, a message is only stored |
| Telegram.HandleStoresInbound | sia/clients/telegram/telegram_client_aiogram.py:155-160 | a valid new message is always stored under its chat-and-id key |
| Telegram.HandleUnaddressedOnlyStores | sia/clients/telegram/telegram_client_aiogram.py:155-176 | a message the bot need not answer is only stored |
| Telegram.PostConfigOf | sia/clients/telegram/telegram_client_aiogram.py:199-216 | reading the post settings fails only with AttributeError |
| Telegram.PostQuery | sia/clients/telegram/telegram_client_aiogram.py:213-221 | the latest-post query selects posts on this platform, newest first |
| Telegram.NextPostTime | sia/clients/telegram/telegram_client_aiogram.py:223-224 | the first post is due at once, later posts the frequency in hours after the latest, and a non-numeric frequency raises TypeError |
| Telegram.PostOnce | sia/clients/telegram/telegram_client_aiogram.py:197-246 | a post run stores at most one new row of type "post", and a failure stores nothing; a new row is the generated post under the chat key and the sent message's id, so a post that was not sent stores nothing |
| Telegram.PostDisabled | sia/clients/telegram/telegram_client_aiogram.py:199-206 | disabled posting does nothing |
| Telegram.PostSpaced | sia/clients/telegram/telegram_client_aiogram.py:213-226 | a post is only made when every earlier post lies more than the frequency in the past |
| Telegram.PostOnceWasDue | sia/clients/telegram/telegram_client_aiogram.py:213-226 | a post is only made when its time has come |
| Telegram.PostFirstInChat | sia/clients/telegram/telegram_client_aiogram.py:213-246 | with no earlier post the generated post is published and stored |
| Telegram.Pow2 | sia/clients/telegram/telegram_client_aiogram.py:88-90 | the back-off delay is at least one second |
| Telegram.ConflictResult | sia/clients/telegram/telegram_client_aiogram.py:78-91 | conflict handling succeeds exactly when a call succeeds after only conflicts, and gives up exactly when every attempt conflicts |
| Telegram.ConflictExhausted | sia/clients/telegram/telegram_client_aiogram.py:78-91 | three conflicts sleep 1 and 2 seconds and then delete the webhook |
| Telegram.HandleConflict | sia/clients/telegram/telegram_client_aiogram.py:78-91 | the retry loop produces the result and actions of `Telegram.ConflictFrom`, which `Telegram.ConflictResult` characterises |
| Telegram.PollingRaises | sia/clients/telegram/telegram_client_aiogram.py:260-303 | polling raises exactly when the last attempt fails and none before succeeded |
| Telegram.PollingExhausted | sia/clients/telegram/telegram_client_aiogram.py:260-303 | three conflicts back off 1, 2 and 4 seconds and return without raising |
| Telegram.StartPollingWithRetry | sia/clients/telegram/telegram_client_aiogram.py:260-303 | the retry loop produces the result and actions of `Telegram.PollingFrom`, which `Telegram.PollingRaises` characterises |
| Telegram.SiaTelegram.constructor | sia/clients/telegram/telegram_client_aiogram.py:25-65 | the client holds the store and the character |
| Telegram.AnswerStored | sia/clients/telegram/telegram_client_aiogram.py:178-195 | at most one row is appended, and only when the message addresses the character, responding is enabled and a response is generated; it is the response as a "reply" under the chat key and the sent message's id |
| Telegram.SiaTelegram.HandleGroupMessage | sia/clients/telegram/telegram_client_aiogram.py:147-195 | updates the store exactly as `Telegram.HandleMessage` |
| Telegram.SiaTelegram.Post | sia/clients/telegram/telegram_client_aiogram.py:197-246 | updates the store exactly as `Telegram.PostOnce` |

## Left out

- I/O, the clock, sleeps, async scheduling and concurrency are not modelled. Times are integer seconds given as parameters, and sleeps appear only as recorded actions in the Telegram retry traces.
- The language model, moderation, search, publishing and media generation are oracles given as parameters. The moderation result is never used by the source.
- Time zones: every time is UTC seconds, and `datetime` arithmetic is integer arithmetic.
- JSON numbers are integers. Floating-point settings values are not modelled.
- Store.GetMessages: only the `wen_posted` sort column is modelled, and rows with equal times keep table order where SQL leaves it open.
- Text formatting: `printable_message`, `printable_tweet`, `printable_tweets_list` and `textwrap` are not modelled. Printing is a parameter of `Records.PrintableList`.
- `upload_media`, `search_tweets` and `get_conversation`'s API call are oracles or left out. So is the prompt of `decide_which_tweet_to_reply_to`: only its oracle answer and the id lookup are modelled.
- `reset_database`, the run loops of both clients (`run`, `periodic_post`) and `SiaQueue`'s scheduling thread are left out, because they only sequence the modelled operations with sleeps.
- The plugin settings of `SiaPostingSettings`, and the knowledge module, are not modelled.
- sia.py, telegram_client.py, web_interface.py, main.py and the migrations are not part of this model. The one exception is the social-memory columns: they follow migration 9e791cda742d, because models_db.py does not declare that table.
- Twitter.EngageOnce: engagement passes arguments that the response generator does not accept (see Findings); the model's generator is an oracle given the chosen tweet and the previous messages, as the corrected call would be.
- Twitter.Items: a dictionary's keys are taken in string order; Python iterates them in insertion order, which the model's map does not keep.
- Text.Lower: only the ASCII letters are lowered. Python's `str.lower()` lowers every cased Unicode character and can change the length, so name ids of non-ASCII names are not modelled.
- Character.PickExamples: a dictionary of at most one entry raises TypeError, because slicing a dictionary does before Python 3.12; from Python 3.12 slices are hashable and that slice raises KeyError instead.
- Memory.SiaMemory.OwnUsername: the platform settings are a map from platform to username, so a platform entry that is not a dictionary (AttributeError in Python) and an explicit null username (None in Python) are not modelled.
- Config.JFormat: a list or a dictionary prints as the placeholder "[...]" or "{...}", not as Python's repr of its contents; a list-valued setting printed into a filter or a key is not modelled.
- Text.ParseInt: only an optional sign followed by ASCII digits is parsed; Python's `int()` also accepts surrounding whitespace, underscores between digits and non-ASCII digits, which matters only where a Telegram reply target is read back from a stored key.
- Reasoning.SiaReasoning.AddClientPostingFixed: on failure only says the earlier queue is kept as a prefix; which items were appended before the unreadable client is not stated.
- Telegram.StartPollingWithRetry: `delete_webhook` is assumed never to raise; the retry traces only record it.
- Twitter.ReplyOnce: the reply loop is stated with the counter as written (not incremented). `Twitter.ReplyFrom` states the corrected cap for the loop that counts its replies.
- Twitter.LastRetrievedReplyId: ids are compared as strings, as the source does, and not as numbers.

## Findings

| source | as written | input that shows it | evidently intended | confidence | as-written member | corrected member |
|---|---|---|---|---|---|---|
| sia/clients/twitter/twitter_official_api_client.py:797-838 | the hourly reply counter is read once and never incremented inside the loop | cap 1, no reply in the last hour, two unflagged mentions: both are answered | stop once the number of replies in the last hour reaches the cap | not executed | Twitter.ReplyCapIgnored | Twitter.ReplyFrom |
| sia/clients/twitter/twitter_official_api_client.py:292-295 | `exclude_own` compares the author user object with the username string | any tweet written by the character itself: it is kept | drop tweets whose author's username is the character's | not executed | Twitter.ExcludeOwnInert | Twitter.ExcludeOwnFixed |
| sia/reasoning/main.py:15-18 | the queue item is built without the required `action` and `created_at` | any client whose next post time has passed: the item is rejected | queue a complete posting item per due client | not executed | Reasoning.ScanAsWritten | Reasoning.PostingItemsShape |
| sia/memory/memory.py:331-386 | `initial_opinion` is only bound when the user has past messages | first message of a user with no history: NameError | create the memory with the current message and no opinion | not executed | Social.NewUserWithoutHistoryFails | Social.UpdateSocialMemoryFixed |
| sia/settings/settings.py:29-58 | `datetime.now()` as a default argument is evaluated once, at import, and the scan calls `get_time_of_day()` without the current time | module imported at 06:00, `should_post_now` called at 22:00 with a night-only condition: the condition is skipped and the general settings are returned | bucket the time the check is made for | not executed | Settings.ImportTimeBucket | Settings.ShouldPostNowAt |
| sia/memory/memory.py:207-210 | the bulk `delete` bypasses the ORM cascade, so the character's link rows survive the messages | clear a character's messages, then add one of the cleared ids again: IntegrityError | remove links together with their messages | not executed | Store.ClearedIdCannotReturn | Store.ClearCascadeAllowsReAdd |
| sia/clients/twitter/twitter_official_api_client.py:1024-1029 | `engage` calls `generate_response` with `use_filtering_rules` and `previous_messages`, which sia/sia.py:247-253 does not declare | any engagement round that reaches generation: TypeError | pass the earlier messages as the conversation | not executed | Twitter.EngageCallRejected | Twitter.EngageCallFixed |
