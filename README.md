# Codecks project cache, modelled in Dafny

The Telegram bot for Codecks keeps a local copy of one Codecks project and refreshes it.
This project models two parts of the bot and proves properties about them:

- The cache object `CodecksData` (`codecks-tg-bot/codecks_data.py`):
  - its snapshot `data` and its freshness stamp `last_update`;
  - the refresh operations that change them: full fetch, incremental history poll, card merge, save and load;
  - the file `data/<subdomain>/codecks.json` that mirrors the snapshot on disk;
  - the read queries over the snapshot: decks, cards of the decks matching a filter, one card, and cards with due dates.
- The request/response rules of the client `CodecksAPI` (`codecks-tg-bot/codecks_api.py`):
  - configuration validation;
  - the three query documents;
  - the request headers and timeout;
  - how transport and HTTP outcomes become a payload or nothing.

Files and modules:

| file | module | contents |
|---|---|---|
| `wrappers.dfy` | `Wrappers` | `Option`, `Result` |
| `json.dfy` | `JsonValues` | decoded JSON values; Python dictionaries as ordered association lists (`get`, `d[k] = v`, `update`) |
| `text.dfy` | `Text` | `str.lower()` and the substring test `in` |
| `dates.dfy` | `Dates` | the `[dd/mm/yy]` token rule and `re.findall` over it; calendar dates; `timedelta` day steps; the two forms of `last_update` and their text |
| `picks.dfy` | `Picks` | "these elements, at increasing positions": how the comprehensions' results are stated |
| `snapshot.dfy` | `SnapshotQueries` | `get_decks`, `get_card_info`, `get_cards` |
| `due_cards.dfy` | `DueDates` | `get_due_cards`: token extraction, the stable sort by first due date, the horizon |
| `codecks_api.dfy` | `CodecksApi` | `CodecksAPI` |
| `codecks_data.dfy` | `CodecksData` | the class `Cache` with the refresh methods, the class `MirrorFile`, the mirror path and the persistence round trip |

How the outside world is modelled:

- **The remote service.** Each fetch takes the response it gets as a parameter:
  - `None` stands for the `None` of `make_request`;
  - `Some(d)` stands for a decoded object.
  The response counts only when `if response:` holds, i.e. it is `Some` and non-empty.
- **The clock.** The current time is a parameter.
- **The disk.** The mirror file is an object of its own (`MirrorFile`), so a second cache of the same subdomain sees what the first one wrote. How a save ends is a parameter (`WriteResult`): the file is written; opening or writing it fails, which is caught; or the directory is missing and `os.makedirs` raises, which is not caught.
- **Queries sent.** The refresh methods return the queries they send. This makes it possible to state what was asked of the service, for example the time bound of a history poll.

In these places the code does something a reader might not expect from the method names; the model follows the code:

- `get_card_data` merges with `dict.update` (`codecks_data.py:102`). A response with a `"card"` key replaces the whole card mapping, so earlier cards missing from the response are dropped (`MergeDropsUnfetchedCard`). Cards are not merged one by one.
- `get_card_data` calls `save_project()` without `await` (`codecks_data.py:103`). That coroutine never runs, so the merge writes nothing to disk and stamps nothing.
- `get_history_data` advances `last_update` as soon as the history answer arrives (`codecks_data.py:115-120`). This happens before the card ids are collected and before the card fetch, and it is not undone if either fails.
- `get_project_data` advances `last_update` even when the fetch fails (`codecks_data.py:73-76`).
- `get_due_cards` sorts and filters by the first token of each card (`codecks_data.py:183`, `:190`), not by the earliest one.
- The history query prints the stamp with an f-string (`codecks_api.py:63`), so its text depends on the stamp's form:
  - after start-up or a load, the stamp is a `datetime` and prints as `YYYY-MM-DD HH:MM:SS`;
  - after a fetch, it is the string `YYYY-MM-DDTHH:MM:SSZ`.

Exceptions:

- Read queries that raise on malformed snapshot data have preconditions saying when they do not raise: `CardMapReadable`, `CardsReadable`, `DueReadable`. The same holds for the `CodecksAPI` constructor, whose failure `NewApi` models as a `Result`.
- When `os.makedirs` raises in `save_project` (`codecks_data.py:56-57`), nothing catches it: `get_project_data` has already replaced the data, which stays unstamped, and `load_project` (`:32-33`, outside its `try`) stops before reading the mirror. The methods return this as `raised`.
- When `get_history_data` raises after it has advanced the stamp, the model returns the outcome `Malformed` together with the state as the code leaves it.

## Model

| member | source | states |
|---|---|---|
| CodecksApi.NewApi | codecks-tg-bot/codecks_api.py:22-28 | construction succeeds iff both the token and the subdomain are set and non-empty; a missing token is reported first, before the subdomain; on success both values are kept |
| CodecksApi.Classify | codecks-tg-bot/codecks_api.py:127-166 | the status is Ok iff the code is 200; it is "unexpected" iff the code is none of 200, 400, 401, 404, 500, 408 |
| CodecksApi.HandleResponse | codecks-tg-bot/codecks_api.py:124-168 | a payload is returned iff the status is 200, and then it is the decoded body |
| CodecksApi.NoPayloadUnlessOk | codecks-tg-bot/codecks_api.py:132-168 | 400, 401, 404, 500 and 408 are recognised codes, and each of them, like any unrecognised code, yields no payload |
| CodecksApi.MakeRequest | codecks-tg-bot/codecks_api.py:107-122 | every exception maps to no payload: a timeout, another request error, any other exception, or a body that fails to decode; a payload comes back iff the answer is 200 with a body that decodes, and it is that body |
| CodecksApi.BuildRequest | codecks-tg-bot/codecks_api.py:97-111 | every request is a POST to the API URL with a 10-second timeout; its body is the query document; it carries X-Account = subdomain, X-Auth-Token = token and Content-Type application/json |
| CodecksApi.Document | codecks-tg-bot/codecks_api.py:30-95 | every query document has the `{"query": {"_root": [{"account": ...}]}}` envelope, from which the selection is read back (`ReadDocument` recovers the query itself) |
| CodecksApi.ReadDocument | codecks-tg-bot/codecks_api.py:30-95 | each query document determines its query: the project selection; an activity selection filtered by createdAt "gt" the given time and selecting card, createdAt, changer; a card selection filtered by id "in" exactly the given id list and selecting title, content. Reading a document back gives the query with its parameters unchanged |
| JsonValues.Set | codecks-tg-bot/codecks_data.py:60 | `d[k] = v` keeps every key in its position and appends k at the end iff it is new |
| JsonValues.IsPayload | codecks-tg-bot/codecks_data.py:80 | `if response:` holds exactly for a response that is present and a non-empty dictionary (also :98, :115) |
| JsonValues.GetSet | codecks-tg-bot/codecks_data.py:60 | after `d[k] = v`, key k maps to v and every other key keeps its value |
| JsonValues.SetDistinct | codecks-tg-bot/codecks_data.py:60 | assigning a key keeps a dictionary's keys distinct |
| JsonValues.Update | codecks-tg-bot/codecks_data.py:102 | `data.update(r)` keeps every existing key in its position and grows by at most the number of entries of r; which keys and values result is stated by `GetUpdate` |
| JsonValues.GetUpdate | codecks-tg-bot/codecks_data.py:102 | after `data.update(r)`, a key of r maps to r's value (the whole value is replaced); every other key keeps its old value |
| JsonValues.UpdateDistinct | codecks-tg-bot/codecks_data.py:102 | the merge keeps the keys distinct |
| JsonValues.UpdateIdempotent | codecks-tg-bot/codecks_data.py:102 | merging the same response twice gives the same data as merging it once |
| JsonValues.UpdateAlreadyMerged | codecks-tg-bot/codecks_data.py:102 | merging a response whose entries the data already holds changes nothing |
| Text.Lower | codecks-tg-bot/codecks_data.py:153 | lower-casing keeps the length and maps each character on its own |
| Text.Contains | codecks-tg-bot/codecks_data.py:153 | a text is found only in a text at least as long |
| Text.ContainsIff | codecks-tg-bot/codecks_data.py:153 | the scan for `filter in title` succeeds iff the filter occurs as a contiguous piece of the title at some position |
| Text.EmptyContained | codecks-tg-bot/codecks_data.py:153 | the empty filter is in every title |
| Dates.HasToken | codecks-tg-bot/codecks_data.py:179 | `re.search` can succeed only on a text at least one token long; `FindAllFirst` ties it to `re.findall` |
| Dates.FindAllIsTokensEverywhere | codecks-tg-bot/codecks_data.py:15 | `re.findall` of the date pattern (scan, skip past each match) lists exactly the tokens at every start position, left to right; because tokens cannot overlap, no token is lost to the skipping |
| Dates.FindAllFirst | codecks-tg-bot/codecks_data.py:176-180 | `re.findall` finds something iff `re.search` does; its first match is the leftmost token of the text |
| Dates.FindAll | codecks-tg-bot/codecks_data.py:15 | every match is a bracket, two digits, a slash, two digits, a slash, two digits, a bracket |
| Dates.TwoDigitYear | codecks-tg-bot/codecks_data.py:183 | `%y` reads 00-68 as 2000-2068 and 69-99 as 1969-1999, keeping the last two digits |
| Dates.TokenDate | codecks-tg-bot/codecks_data.py:183 | the date read from a token as `[%d/%m/%y]` lies in 1969-2068 |
| Dates.TokenDateOfFormat | codecks-tg-bot/codecks_data.py:183 | reading as `[%d/%m/%y]` takes the day from the first field, the month from the second and the year from the third: the token written for a date of 1969-2068 reads back as that date |
| Dates.FormatOfTokenDate | codecks-tg-bot/codecks_data.py:183 | every token is the text of the date it reads as, so tokens and dates of 1969-2068 correspond one to one |
| Dates.DateLeTotalOrder | codecks-tg-bot/codecks_data.py:182-184 | the order on (year, month, day) by which the sort compares parsed dates is a total order |
| Dates.NextDay | codecks-tg-bot/codecks_data.py:191 | one day later is a valid date and strictly later |
| Dates.AddDays | codecks-tg-bot/codecks_data.py:191 | `now + timedelta(days=n)` lands on a valid date, not earlier, and strictly later when n > 0 |
| Dates.AddDaysNumber | codecks-tg-bot/codecks_data.py:191 | `d + timedelta(days=n)` is exactly n days later, counted as day numbers from 1 January of year 1 |
| Dates.DateLeIffDayNumber | codecks-tg-bot/codecks_data.py:182-191 | the order of (year, month, day) is the order of day numbers, and equal dates are those with equal day numbers |
| Dates.NextDayAdjacent | codecks-tg-bot/codecks_data.py:191 | no valid date lies strictly between a date and the day after it |
| Dates.WithinDays | codecks-tg-bot/codecks_data.py:186-192 | a date is by the horizon of n days exactly when its day number is at most n more than today's |
| Dates.FormatIso | codecks-tg-bot/codecks_data.py:74-76 | `strftime("%Y-%m-%dT%H:%M:%SZ")` of a four-digit-year time is 20 characters long |
| Dates.FormatPlain | codecks-tg-bot/codecks_api.py:63 | `str(datetime)` of a time without microseconds is 19 characters long |
| Dates.PlainIsIsoWithSpace | codecks-tg-bot/codecks_data.py:74-76 | the two texts of a time agree except that `str(datetime)` has a space for the `T` and no trailing `Z` |
| Dates.Render | codecks-tg-bot/codecks_api.py:63 | the f-string renders a `datetime` stamp in 19 characters with a space at position 10, a text stamp in 20 with a `T` there (`PlainIsIsoWithSpace` relates the two) |
| Dates.ParseIso | codecks-tg-bot/codecks_data.py:40-42 | whatever `strptime` accepts is a valid time |
| Dates.ParseFormatIso | codecks-tg-bot/codecks_data.py:40-42 | reading the stamp text back with the same format gives the same time |
| SnapshotQueries.Decks | codecks-tg-bot/codecks_data.py:132-134 | `get_decks` gives the stored deck value, or an empty list when there is none |
| SnapshotQueries.CardInfo | codecks-tg-bot/codecks_data.py:164-166 | `get_card_info(id)` gives the stored card, or the empty record when the card map or the id is absent |
| SnapshotQueries.CardInfoAfterMerge | codecks-tg-bot/codecks_data.py:102 | after a merge whose response has a card map, every card lookup answers from the response alone |
| SnapshotQueries.MergeDropsUnfetchedCard | codecks-tg-bot/codecks_data.py:102 | a stored card that is missing from a card response is no longer found after the merge |
| SnapshotQueries.MatchingDeckIds | codecks-tg-bot/codecks_data.py:150-154 | `matching_decks` holds at most one id per deck; `MatchingDeckIdsExact` says which |
| SnapshotQueries.MatchingDeckIdsExact | codecks-tg-bot/codecks_data.py:150-154 | the matched ids are the ids of exactly the decks whose lower-cased title contains the lower-cased filter, in deck order; several decks may match |
| SnapshotQueries.CardsInDecks | codecks-tg-bot/codecks_data.py:156-160 | every card kept is one of the given cards and names one of the matched ids |
| SnapshotQueries.CardsInDecksExact | codecks-tg-bot/codecks_data.py:156-160 | the result is the subsequence of exactly the cards whose deckId is among the matched ids, in card order |
| SnapshotQueries.Cards | codecks-tg-bot/codecks_data.py:136-162 | every card returned is a value of the stored card map |
| SnapshotQueries.CardsExact | codecks-tg-bot/codecks_data.py:136-162 | `get_cards(filter)` returns exactly, in card order, the cards whose deckId is the id of some deck whose title contains the filter ignoring case; it returns [] when either map is not a dictionary |
| SnapshotQueries.EmptyFilterMatchesEveryDeck | codecks-tg-bot/codecks_data.py:150-154 | the empty filter selects the id of every deck, in order |
| SnapshotQueries.DeckKeyIsNotDeckId | codecks-tg-bot/codecks_data.py:150-160 | decks match by their `id` field, not their key: a deck keyed D1 without an `id` selects the card without a `deckId` and not the card naming D1 |
| DueDates.DueCards | codecks-tg-bot/codecks_data.py:168-194 | the due list is sorted by first due date |
| DueDates.WithDueDates | codecks-tg-bot/codecks_data.py:176-180 | `cards_with_due_dates` holds at most one entry per card, each for one of the cards; `WithDueDatesExact` says which, with which matches |
| DueDates.WithDueDatesExact | codecks-tg-bot/codecks_data.py:176-180 | a card is listed iff its content contains a token; it is listed with all the tokens `re.findall` gives, in card order |
| DueDates.TagKey | codecks-tg-bot/codecks_data.py:177-183 | a listed card's sort key is the date of the leftmost token in its content |
| DueDates.SortByDue | codecks-tg-bot/codecks_data.py:182-184 | `list.sort(key=...)` keeps the length; `SortByDuePermutes`, `SortByDueSorted` and `SortByDueStable` characterise the result |
| DueDates.SortByDuePermutes | codecks-tg-bot/codecks_data.py:182-184 | the sort is a permutation of its input |
| DueDates.InsertSorted | codecks-tg-bot/codecks_data.py:182-184 | inserting an element into a sorted list keeps it sorted |
| DueDates.SortByDueSorted | codecks-tg-bot/codecks_data.py:182-184 | the sort orders the cards ascending by the date of their first token |
| DueDates.SortByDueStable | codecks-tg-bot/codecks_data.py:182-184 | the sort is stable: cards due on the same date keep their relative order |
| DueDates.UpTo | codecks-tg-bot/codecks_data.py:186-192 | the horizon comprehension keeps at most every card, and only cards due on or before the horizon; `UpToCount` and `UpToWithKey` say which |
| DueDates.UpToCount | codecks-tg-bot/codecks_data.py:186-192 | the horizon filter keeps each element as often as it occurs if it is due by the horizon, and drops it otherwise |
| DueDates.UpToWithKey | codecks-tg-bot/codecks_data.py:186-192 | the filter keeps the same-date group of each date up to the horizon unchanged and in order, and drops every later date |
| DueDates.UpToSorted | codecks-tg-bot/codecks_data.py:186-192 | filtering a sorted list leaves it sorted |
| DueDates.DueCardsCharacterised | codecks-tg-bot/codecks_data.py:168-194 | `get_due_cards(days_ahead)` is sorted by first due date; it holds each dated card exactly as often as it occurs, keeping only those due by today + days_ahead when days_ahead > 0 (and some card is dated), and all of them otherwise; cards due on the same date keep card order |
| DueDates.NoDatedCardsNoHorizon | codecks-tg-bot/codecks_data.py:186-192 | without a dated card the result is empty for every days_ahead, however large, since the horizon is never computed |
| DueDates.RenewalDueInTenDays | codecks-tg-bot/codecks_data.py:168-194 | on 2025-01-01, a card marked [05/01/25] is listed with a 10-day horizon or no horizon, and not with a 2-day one |
| CodecksData.JoinPath | codecks-tg-bot/codecks_data.py:25-26 | `os.path.join` puts one slash between the parts; an absolute second part replaces the first |
| CodecksData.MirrorPath | codecks-tg-bot/codecks_data.py:25-26 | the mirror file is always named `codecks.json`, and its path text starts with `data/` unless the subdomain is absolute (a `..` in the subdomain can still lead out of `data/`, as `MirrorPathUnchecked` shows) |
| CodecksData.MirrorPathOfPlainName | codecks-tg-bot/codecks_data.py:25-26 | the mirror of a one-component subdomain is `data/<subdomain>/codecks.json` |
| CodecksData.MirrorPathsDistinct | codecks-tg-bot/codecks_data.py:25-26 | two different one-component subdomains never share a mirror file |
| CodecksData.MirrorPathUnchecked | codecks-tg-bot/codecks_data.py:25-26 | the subdomain is not validated: `acme/` shares the mirror of `acme`, and both `/tmp` and `..` put the mirror outside `data/` (`data/../codecks.json`) |
| CodecksData.Stamped | codecks-tg-bot/codecks_data.py:60 | stamping keeps the key order, appending `last_update` at the end when it is new |
| CodecksData.StampedEntries | codecks-tg-bot/codecks_data.py:50-60 | `last_update` comes to hold the stamp's text; every other entry is unchanged; keys stay distinct |
| CodecksData.LoadedStamp | codecks-tg-bot/codecks_data.py:39-42 | the time is read iff `last_update` is text that `strptime` accepts, and then it is a valid time |
| CodecksData.LoadAfterFetch | codecks-tg-bot/codecks_data.py:28-93 | persistence round trip: after a successful fetch and write, a load reads back the fetched data with its stamp, and the stamp comes back as the same time in `datetime` form |
| CodecksData.FailedFetchStillStamps | codecks-tg-bot/codecks_data.py:72-93 | a failed full fetch keeps the old data and writes nothing, but still moves `last_update` to now |
| CodecksData.DirFailureLeavesUnstamped | codecks-tg-bot/codecks_data.py:56-60 | when `os.makedirs` raises, the fetched project is held without the stamp and the file is unchanged |
| CodecksData.CardRefs | codecks-tg-bot/codecks_data.py:129 | collecting the ids succeeds iff every activity is an object with a `card` key; then it gives one id per activity, in order, with duplicates kept |
| CodecksData.ActivityCards | codecks-tg-bot/codecks_data.py:123-129 | a list of activities is read entry by entry; an empty text or object asks for nothing; any other non-list value raises |
| CodecksData.HistoryOutcomeOf | codecks-tg-bot/codecks_data.py:113-130 | nothing is answered iff the history response is missing or empty; cards are fetched only when at least one is named |
| CodecksData.HistoryAsksForActivityCards | codecks-tg-bot/codecks_data.py:123-130 | for a non-empty activity list, cards are requested iff every activity names its card, and then with the list of those card ids in activity order |
| CodecksData.FirstHistorySince | codecks-tg-bot/codecks_data.py:22 | the first history query after start-up asks for activities after `1970-01-01 00:00:00` |
| CodecksData.Cache.constructor | codecks-tg-bot/codecks_data.py:19-26 | a new cache has empty data, `last_update` at 1970-01-01 and the mirror path of its subdomain; the mirror file is the one the caller passes |
| CodecksData.Cache.SaveProject | codecks-tg-bot/codecks_data.py:50-70 | if creating the directory raises, nothing changes and the exception is reported; otherwise the stamp is written into the data, and the file then holds exactly that data if the write succeeds and is unchanged if not; the stamp is unchanged |
| CodecksData.Cache.GetProjectData | codecks-tg-bot/codecks_data.py:50-93 | `last_update` becomes now whatever the answer; a non-empty answer replaces the data wholesale and is saved stamped, or stays unstamped when the save raises (which is reported); otherwise the data and the file are unchanged |
| CodecksData.Cache.GetCardData | codecks-tg-bot/codecks_data.py:95-107 | the cards query carries exactly the given ids; a non-empty answer is merged at the top level, otherwise the data is unchanged; the stamp and the file never change |
| CodecksData.Cache.GetHistoryData | codecks-tg-bot/codecks_data.py:109-130 | the poll asks for activities after the old stamp as it prints; a missing or empty answer changes nothing and fetches no cards; any answer moves the stamp to now before the card fetch and keeps it there; the cards of the activities are requested, in order, only when there is at least one activity; the data changes only by merging that card answer |
| CodecksData.Cache.LoadProject | codecks-tg-bot/codecks_data.py:28-93 | without a mirror, the project is fetched (and maybe written) first, and an exception of the save ends the load; a readable mirror then replaces the data even when its time does not parse, and its time, if it parses, replaces the stamp; an unreadable mirror changes nothing, and a failed fetch still moves the stamp |
| CodecksData.Cache.GetDecks | codecks-tg-bot/codecks_data.py:132-134 | answers `Decks` of the current data and changes nothing |
| CodecksData.Cache.GetCardInfo | codecks-tg-bot/codecks_data.py:164-166 | answers `CardInfo` of the current data and changes nothing |
| CodecksData.Cache.GetCards | codecks-tg-bot/codecks_data.py:136-162 | answers `Cards` of the current data (characterised by `CardsExact`) and changes nothing |
| CodecksData.Cache.GetDueCards | codecks-tg-bot/codecks_data.py:168-194 | answers `DueCards` of the current data (characterised by `DueCardsCharacterised`) and changes nothing |
| CodecksData.RestartRestoresSnapshot | codecks-tg-bot/codecks_data.py:28-93 | after a first start with no mirror and a successful fetch and write, a restarted cache loads the same data and the same time without fetching |

## Left out

- The `asyncio` locks and the coroutine interleavings: the cache is modelled as sequential state, one operation at a time.
- `codecks.py` (the background task with `sleep(60)`), `bot.py`, `__main__.py` and `telegram_helpers.py`: event-loop wiring and chat handlers, outside the cache.
- The TODO stubs `create_card`, `update_card`, `delete_card` and `add_due_date_to_card` (`codecks_data.py:196-211`): they do nothing.
- File system, network, environment and clock calls: `open`, `os.path.exists`, `os.makedirs`, `requests.request` and `os.getenv` are replaced by the parameters described above, and `datetime.now()` by a time parameter. Logging and terminal colours are left out.
- JSON encoding and decoding: the model works on decoded values, and numbers are integers (floats are left out).
- CodecksData.Cache.SaveProject: a write that fails part-way is modelled as leaving the file as it was, not as a truncated file. The save is only reached when the stamp is in text form, so the `datetime` form it would fail to encode is excluded by a precondition.
- CodecksData.Cache.GetProjectData: a response is a decoded object or nothing (and likewise for CodecksData.Cache.GetCardData and CodecksData.Cache.GetHistoryData). `make_request` can also return a non-object JSON value (a list, a number). The code would then store it as the data, or fail on `.get`; that path is not modelled. For the same reason a mirror file holding a non-object value is not modelled.
- Dates.ParseIso: `strptime` also accepts one-digit fields (`2025-1-5T...`); the model reads only the exact two-digit layout that `save_project` writes, so CodecksData.LoadedStamp and CodecksData.Cache.LoadProject treat such a stamp as unparsable.
- Text.Lower: `str.lower()` is modelled for ASCII letters only, not for the rest of Unicode.
- Dates.FindAllIsTokensEverywhere (likewise Dates.FindAll, Dates.HasToken and Dates.FindAllFirst): `\d` is modelled as the ASCII digits; the regex engine also accepts other Unicode decimal digits.
- SnapshotQueries.CardsExact: Python's `in` compares ids across types (`True == 1`, `1 == 1.0`). The model compares JSON values structurally.
- CodecksData.Cache.GetDueCards: `datetime.now()` is evaluated once per card in the horizon filter (`codecks_data.py:191`), so a query that runs across midnight can compare cards against two different horizons; the model takes one `today` for the whole query.
- DueDates.DueCards: `now + timedelta(days=days_ahead)` is computed only when days_ahead > 0 and some card is dated (`codecks_data.py:186-192`); past the year 9999 it raises `OverflowError`, and the precondition `HorizonDefined` excludes exactly that case. A malformed card map (not a dictionary, a card that is not a dictionary, content that is not text, a first token that is not a real date) raises; `DueReadable` excludes it. The comparison is by date: a token's midnight is at or before `now + days` exactly when its date is at or before that date.
- CodecksApi.MakeRequest: the `method` argument is always its default `POST` and is not modelled as a parameter.
