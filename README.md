# YouVersion verse of the day: a Dafny model

The plugin shows a daily Bible verse in the Steam Deck quick-access menu.
Most of it is UI and network glue. This project models the data handling
inside that glue, in four pieces:

- **The backend's verse-of-the-day service** (`main.py`), module `VotdBackend`.
  `fetch_votd` turns the bible.com verse-of-the-day page into a record
  `{citation, passage, images, version}` and keeps it in the class-level cache
  `Plugin.votd_cache`. The record comes either from the page's embedded
  `__NEXT_DATA__` JSON or, the old way, from lists of scraped HTML fragments.
  `handle_votd_ws` sends one JSON object over the socket and closes it.
  The class `Plugin` holds the cache. Its method `FetchVotd` runs the
  source's loops over the citation and verse matches (`ProcessCitations`,
  `ProcessVerses`) and is proved equal to the pure description `Uncached`.
  The Python string operations it relies on (`strip()`, negative slicing,
  `replace`) are written out in module `PyText`. `strip()` uses exactly the
  characters for which Python's `str.isspace()` holds.
- **The panel component** (`src/index.tsx`), module `VersePanel`. Class `Panel`
  holds the `verseOfTheDay` / `error` / `loading` state slots.
  `LogVerseOfTheDay` classifies one request outcome into an error message or
  a normalised verse, and always ends with `loading` false.
- **The verse-of-the-day socket hook** (`src/getVOTD.tsx`), module `VotdHook`.
  Class `VotdState` holds four state slots. `OnMessage` and `OnError` are the
  socket handlers, stated per message shape, including the frames on which
  the handler throws.
- **The update-check socket hook** (`src/getUpdate.tsx`), module `UpdateHook`.
  Class `UpdateState` holds three state slots and the same two handlers.

Network results and parsed data are inputs to the model:

- The page download is an `Option<string>`: `None` when the request failed.
  An empty page is falsy in Python, so it counts as a failure too.
- The regular-expression match lists and the decoded `__NEXT_DATA__` fields
  come in a `Scan`.
- On the frontend, each decoded reply is a `Message` whose properties are
  `Nullish` (missing, `null`, or a value).
- The outcome of an HTTP request is a `VersePanel.Outcome`.
- A socket frame is a `JsValues.Frame`.

Each state class has a `Valid()` invariant that every handler preserves. A
verse in state has a non-empty citation. An error, once set, is a non-empty
string, so the view shows it. In the panel, a verse's passage is also
non-empty. The socket hook does not require that, so its verse may have an
empty passage.

Points where the code behaves in a way a reader might not expect:

- In `src/getVOTD.tsx` (lines 31, 40-41 and 54), a frame that does not parse
  makes `onmessage` throw before `setLoading(false)`, and so does a message
  with a citation but no passage. `loading` then stays true
  (`VotdHook.ThrowingFrameKeepsLoading`).
- The interface comment in `src/getUpdate.tsx` names the status values
  "Up-to-date" and "Update available". The handler copies whatever arrives
  (`UpdateHook.UpdateState.OnMessage`). `src/getVOTD.tsx` recognises
  "Update Available" with a capital A only (`VotdHook.LowerCaseStatusIgnored`).

The legacy citation split (`main.py:91-93`) assumes a three-letter version
abbreviation. For such a citation it recovers the reference and the version
exactly (`CitationSplitsThreeLetterVersion`). With a four-letter abbreviation
such as "NKJV", the citation keeps a trailing space and the version loses its
first letter (`CitationSplitsFourLetterVersion`). The model keeps the code's
behaviour.

## Model

| member | source | states |
|---|---|---|
| `PyText.Strip` | main.py:91 | `strip()` yields a contiguous slice that neither starts nor ends with whitespace, and everything cut off on either side is whitespace |
| `PyText.TakeLast` | main.py:92 | `s[-n:]` for `n > 0` (here `s[-4:]`) is the last `n` characters, or the whole string when it is shorter |
| `PyText.DropLast` | main.py:93 | `s[:-6]` is a prefix with six characters fewer, or empty when the string has at most six |
| `PyText.RemoveChar` | main.py:92 | `replace(c, '')` leaves no `c` and never lengthens the string |
| `PyText.RemoveCharSingle` | main.py:92 | `replace(c, '')` on one character drops it exactly when it is `c` |
| `PyText.RemoveCharConcat` | main.py:92 | `replace(c, '')` of a concatenation is the concatenation of the parts' results, so the kept characters stay in their order |
| `PyText.RemoveCharCounts` | main.py:92 | `replace(c, '')` removes exactly the occurrences of `c`: every other character keeps its count |
| `PyText.ReplaceChar` | main.py:63 | `replace('\n', ' ')` keeps the length, turns each newline into a space and leaves every other character in place |
| `PyText.Prefixed` | main.py:68 | the list comprehension yields one prefixed entry per source entry, in order |
| `VotdBackend.Record` | main.py:71-76 | a cached record has exactly the keys citation, passage, images and version, holding the given values |
| `VotdBackend.ImageUrls` | main.py:67-68 | every image URL is "https://www.bible.com" followed by the matched src, with the order and count of matches preserved |
| `VotdBackend.JsonPathRecord` | main.py:60-79 | an undecodable `__NEXT_DATA__` raises, and only then; a decodable one gives a record with exactly the four keys: citation `human`, passage the content with newlines turned into spaces, the image URLs, and version `abbreviation` |
| `VotdBackend.JsonPassageHasNoNewline` | main.py:63 | on the JSON path the cached passage contains no newline |
| `VotdBackend.CitationOf` | main.py:91-93 | the citation kept from one match, `strip()[:-6]`, is a prefix of the stripped text six characters shorter, or empty when that text has at most six |
| `VotdBackend.VersionOf` | main.py:91-92 | the version read from one match, `strip()[-4:]` without `(` and `)`, has at most four characters and no parenthesis |
| `VotdBackend.CitationAndVersionRebuild` | main.py:91-93 | a stripped match ending in " (", three characters without parentheses and ")" is rebuilt exactly as citation + " (" + version + ")", so the split loses nothing |
| `VotdBackend.VersionOfShape` | main.py:91-92 | the version equals the stripped text's last four characters when those hold no parenthesis |
| `VotdBackend.PassageOf` | main.py:98 | the passage kept from one verse match is the stripped text with each newline turned into a space and every other character kept in place, so no newline is left |
| `VotdBackend.CitationsOf` | main.py:90-94 | the citation list has one entry per match, in match order |
| `VotdBackend.CitationSplitsThreeLetterVersion` | main.py:91-93 | "reference (VER)" with a three-letter version splits into exactly that reference and version |
| `VotdBackend.CitationSplitsFourLetterVersion` | main.py:91-93 | with a four-letter version the citation keeps a trailing space and the version loses its first letter |
| `VotdBackend.ProcessCitations` | main.py:90-95 | the loop yields `CitationsOf` the matches and the version of the last match; with no match, `version` stays unbound |
| `VotdBackend.ProcessVerses` | main.py:97-100 | the loop yields one passage per verse match, in order: stripped, with newlines turned into spaces |
| `VotdBackend.LegacyRecord` | main.py:80-113 | the legacy path raises exactly when there is no citation match, because `version` is unbound at line 110. Otherwise the record has the four keys. Its citation comes from the first match. Its passage comes from the first verse match, or is `''` when there is none. Its images are the bible.com URLs of every image match, in order. Its version comes from the last citation match |
| `VotdBackend.Uncached` | main.py:54-56 | a failed or empty download makes `fetch_votd` return `{}` |
| `VotdBackend.RecordWhenFetched` | main.py:60-113 | a successful download with decodable `__NEXT_DATA__`, or with at least one citation match on the legacy path, yields a record with exactly the four keys, so it is non-empty and sent as it is |
| `VotdBackend.Reply` | main.py:126-132 | the socket sends non-empty data as it is, `{"error": "Failed to fetch data"}` for `{}`, and `{"error": "Internal error"}` when `fetch_votd` raised; the reply is never empty |
| `VotdBackend.Plugin.constructor` | main.py:25-26 | the cache starts empty, which satisfies the invariant that it is `{}` or one whole four-key record |
| `VotdBackend.Plugin.FetchVotd` | main.py:48-116 | a non-empty cache is returned unchanged and nothing is fetched; otherwise it fetches, returns `Uncached`, and caches the result only when a record was built (a failure or a raise leaves the cache empty); the cache stays `{}` or one four-key record, and every non-empty dict it returns, cached or fresh, is such a record |
| `VotdBackend.Plugin.HandleVotdWs` | main.py:119-134 | one reply per request: the cached record, or `Reply` of a fresh fetch, with the cache updated as by `FetchVotd`; every reply, from any valid cache, is either a four-key record or a one-key `error` object |
| `VotdBackend.TwoRequests` | main.py:50-52 | once a first request has cached a record, the second is served that same record without a fetch; after a failed or crashed first request, the second fetches again |
| `JsValues.Normalised` | src/index.tsx:74-79 | the verse record keeps the citation and passage, takes `images` when it is present and `[]` when it is missing or `null`, and `version` when present and "Unknown" otherwise (the same literal is at src/getVOTD.tsx:39-44) |
| `VersePanel.InvalidStructureMessage` | src/index.tsx:81 | the missing-fields message starts with "Invalid structure: Missing fields." |
| `VersePanel.Panel.constructor` | src/index.tsx:11-18 | verse null, error null, loading true |
| `VersePanel.Panel.LogVerseOfTheDay` | src/index.tsx:21-90 | no serverAPI: error "serverAPI is not defined" and no request. A rejected fetch or a JSON error gives "Failed to fetch the verse of the day: " plus the message. A non-ok response gives "Error: " plus statusText. Falsy data gives "No data received from the API.". A truthy citation and passage set the verse with `images ?? []` and `version ?? "Unknown"` and keep any earlier error. Otherwise the missing-fields error is set. The verse changes only on success, loading always ends false, and `Valid()` is preserved |
| `VersePanel.ErrorSurvivesSuccess` | src/index.tsx:72-79 | after a failed request, a successful one shows the new verse while the old error stays set |
| `VotdHook.VotdState.constructor` | src/getVOTD.tsx:11-16 | verse null, error null, loading true, updateAvailable null |
| `VotdHook.VotdState.FetchVerseOfTheDay` | src/getVOTD.tsx:19-20 | starting a fetch sets loading and changes nothing else |
| `VotdHook.VotdState.OnMessage` | src/getVOTD.tsx:30-55 | a truthy error sets error and keeps the verse. Otherwise a truthy citation sets the verse with `images ?? []` and `version ?? "Unknown"`. With neither, verse and error stay. "Up-to-date" and exactly "Update Available" set updateAvailable, whichever branch ran; other statuses leave it. Loading ends false. An unparseable frame, `null`, or a citation without passage throws and changes nothing |
| `VotdHook.VotdState.OnError` | src/getVOTD.tsx:57-61 | error "WebSocket error occurred.", loading false, verse and updateAvailable unchanged |
| `VotdHook.LowerCaseStatusIgnored` | src/getVOTD.tsx:48-52 | the status "Update available" leaves updateAvailable null, although loading ends |
| `VotdHook.ThrowingFrameKeepsLoading` | src/getVOTD.tsx:30-54 | a first frame that throws leaves the hook loading with no verse and no error |
| `UpdateHook.UpdateState.constructor` | src/getUpdate.tsx:10-12 | updateInfo null, error null, loading true |
| `UpdateHook.UpdateState.FetchUpdateInfo` | src/getUpdate.tsx:15-16 | starting the check sets loading and changes nothing else |
| `UpdateHook.UpdateState.OnMessage` | src/getUpdate.tsx:25-40 | a truthy error sets error and keeps updateInfo. Otherwise updateInfo becomes status, local_version and github_version, copied as they are and never checked, and the error stays. Loading ends false. Only an unparseable frame or `null` throws, and then nothing changes |
| `UpdateHook.UpdateState.OnError` | src/getUpdate.tsx:42-46 | error "WebSocket error occurred while checking for updates.", loading false, updateInfo unchanged |
| `UpdateHook.ErrorSurvivesUpdate` | src/getUpdate.tsx:29-37 | a successful message after a socket error sets updateInfo and leaves the error set |

## Left out

- `fetch_data` (main.py:32-45): the HTTP request, its thread executor and `raise_for_status` are reduced to their result, an optional page text.
- Regular-expression scanning of the page and `json.loads` (main.py:59-67, main.py:86-88): their results are inputs. A decode error, a missing key and an empty `verses` list are all one `Malformed` case.
- Non-string values in `__NEXT_DATA__` (main.py:63-65): the model reads `content`, `human` and `abbreviation` as strings. The source caches whatever JSON value `human` and `abbreviation` hold (null, a number, an object), and a non-string `content` raises `AttributeError` at `.replace`. The model folds that raise into `Malformed` and does not model non-string `human` or `abbreviation`.
- `Plugin.votd_cache` is one class attribute shared by every `Plugin` instance (main.py:26). The model keeps it as a field of one `Plugin` object, and `new Plugin()` stands for the class definition: it does not model two instances sharing the cache, nor that constructing a second instance leaves the cache as it was.
- Concurrency: two socket requests that overlap inside `fetch_votd` could both fetch before either fills the cache. The model runs requests one after another.
- The closing of the socket in the `finally` of `handle_votd_ws` (main.py:133-134) is not a separate step: every raise of `fetch_votd` is a value of the model, so no path skips it.
- A failure of `ws.send_json` inside the `try` of `handle_votd_ws`, which would make it try a second reply, is not modelled.
- The aiohttp server setup, the endless wait, `_unload`, logging and the `sys.path` setup (main.py:1-14, main.py:136-153).
- Frontend property values other than strings and string arrays: numbers, booleans or objects in `citation`, `error` and the like. Their `toString()` and truthiness are not modelled. A decoded value that is truthy but not an object reads as a message with every property missing.
- React rendering, `useEffect` mounting, socket `onopen` / `onclose` logging and the cleanup that closes the socket.
- The frontend and backend are modelled separately, not as one protocol. The panel requests `/api/verse-of-the-day` and the update hook `/check_update`, and main.py registers only `/votd_ws`.
- `src/notify.tsx`, `dist/index.js` and `rollup.config.js` are not part of this model. They hold a toast wrapper, the build output with its external browsing library, and build configuration.
