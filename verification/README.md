# kawaii-watch core, modelled in Dafny

kawaii-watch runs a never-ending conversation between two language-model
personas (a girl and a boy). It streams each reply to browser clients over a
WebSocket and shows them in a small React front end. This project models that
conversation engine and the state kept on both sides of the socket:

- `similarity.dfy` (module `Similarity`) models the Levenshtein-based `textSimilarity` of
  `server/src/util.ts`. The edit distance is the prefix recurrence. The method
  fills the `(|a|+1) x (|b|+1)` table row by row. The lemmas prove the
  distance bounds, the zero-iff-equal law and symmetry, and that the ratio
  stays in [0, 1].
- `text.dfy` (module `Text`) models the JavaScript string operations the
  components call. These are `trim` over the ECMAScript whitespace set,
  `toLowerCase` on ASCII letters, and `split` on a one-character separator
  with its inverse `join`.
- `dialogue.dfy` (module `Dialogue`) holds what `simulateLove` (`server/src/love.ts`) and `putOn`
  (`server/src/lover.ts`) share:
  - the message types;
  - the transcript as a class whose entries are pushed and role-flipped in place;
  - the word count and the inclusive random integer;
  - a closed form of the transcript, the completion requests and the
    `onMessage` calls after n replies.
- `love.dfy` (module `Love`) models the cancellable loop: the `LoveController`
  stop flag and `simulateLove` with its wait time.
- `lover.dfy` (module `LoverLoop`) models the loop without a stop flag, `putOn`.
- `server.dfy` (module `Server`) models the WebSocket server of
  `server/src/index.ts`: the history of the last 10 messages, the client
  set, the `init` packet, `broadcast`, and the callback that feeds both.
- `livechat.dfy`, `notifications.dfy` and `colors.dfy` (modules `LiveChat`,
  `Notifications` and `ProfileColors`) model the client components. These are
  the rate-limited chat input, the notification list with its expiry, and the
  profile colours (`stringToColor`, `ethnicityToColor`).

Some things the programs get from their environment are modelled as plain
values:

- The completion service is an oracle `replies: seq<string>`. Call number c
  answers `replies[c]` when c < |replies|. Otherwise it rejects, which ends the loop.
- Clock readings are a function `elapsedMs: nat -> int`, one reading per reply.
- `Math.random()` draws are a function `uniform: nat -> Unit`, one draw per
  reply, where Unit is the reals in [0, 1).
- The stop flag of `simulateLove` is read at four places per round (before
  each request and after each reply). The model represents it as
  `stopAt: Option<nat>`, the first check that sees it set. A flag never
  clears, so check c sees it set exactly when c >= stopAt. Turn n uses checks
  2n and 2n+1.

Two behaviours of the code are worth noting, because they differ from what a
symmetric two-persona chat would suggest:

- After every reply of the girl, the roles of the whole transcript are
  flipped. Both messages of a round therefore carry the same role in every
  later request, as `Dialogue.RolesAlternateByPair` states. It is not true
  that each speaker's own messages are always `assistant`.
- `putOn` sleeps for the time the completion took plus the random wait.
  `simulateLove` sleeps for the wait minus that time.

## Model

| member | source | states |
|---|---|---|
| Similarity.Similarity | server/src/util.ts:18-20 | the similarity of any two strings lies in [0, 1] |
| Similarity.DistanceAtMostMaxLength | server/src/util.ts:5-17 | the distance between two prefixes never exceeds the longer prefix length |
| Similarity.DistanceAtLeastLengthGap | server/src/util.ts:5-17 | the distance is at least the difference of the two prefix lengths |
| Similarity.DistanceZeroIffEqual | server/src/util.ts:8-17 | the distance of two prefixes is 0 exactly when the prefixes are equal |
| Similarity.DistanceSymmetric | server/src/util.ts:8-17 | swapping the two strings (and the two indices) leaves every table cell unchanged |
| Similarity.DistanceOfPrefixes | server/src/util.ts:8-17 | table cell (i, j) is the edit distance of the prefixes a[..i] and b[..j] |
| Similarity.SimilaritySymmetric | server/src/util.ts:2-20 | the similarity of a and b equals that of b and a |
| Similarity.SimilarityOneIffEqual | server/src/util.ts:18-20 | the similarity is 1 exactly when the two strings are equal (two empty strings give 1) |
| Similarity.SimilarityEmptyVersusNonEmpty | server/src/util.ts:5-20 | an empty string against a non-empty one has similarity 0 |
| Similarity.SimilarityZeroIffMaximalDistance | server/src/util.ts:18-20 | the similarity is 0 exactly when the strings are not both empty and the distance equals the longer length |
| Similarity.FillRow | server/src/util.ts:9-16 | filling row i keeps every earlier row and sets each cell of row i to the edit distance of the matching prefixes |
| Similarity.TextSimilarity | server/src/util.ts:2-21 | the table-filling computation returns exactly the similarity defined by the edit distance |
| Text.SkipWhitespace | client/src/components/ProfilesDisplay.tsx:35 | the scan stops at the first non-whitespace index at or after i and passes only whitespace |
| Text.SkipWhitespaceBack | client/src/components/ProfilesDisplay.tsx:35 | the backward scan stops just after the last non-whitespace character before j and passes only whitespace |
| Text.Trim | client/src/components/LiveChat.tsx:34 | `trim()`: the start and end trims composed; `Text.TrimIsInfix`, `Text.TrimHasNoOuterWhitespace` and `Text.TrimEmptyIffAllWhitespace` state what it returns |
| Text.TrimStart | client/src/components/ProfilesDisplay.tsx:35 | the result is a suffix of the input, what was dropped is whitespace, and the result does not start with whitespace |
| Text.TrimEnd | client/src/components/ProfilesDisplay.tsx:35 | the result is a prefix of the input, what was dropped is whitespace, and the result does not end with whitespace |
| Text.TrimIsInfix | client/src/components/LiveChat.tsx:34 | the trimmed text is an infix s[i..j] of the input, with only whitespace outside it |
| Text.TrimHasNoOuterWhitespace | client/src/components/LiveChat.tsx:38 | a non-empty trimmed text starts and ends with a non-whitespace character |
| Text.TrimEmptyIffAllWhitespace | client/src/components/LiveChat.tsx:34 | trimming gives the empty string exactly when the input is all whitespace, which is when the submit guard rejects it |
| Text.TrimIdempotent | client/src/components/ProfilesDisplay.tsx:35 | trimming twice is trimming once |
| Text.ToLower | client/src/components/ProfilesDisplay.tsx:35 | `toLowerCase()` on ASCII: same length, each capital letter replaced by its small letter and every other character kept |
| Text.ToLowerIdempotent | client/src/components/ProfilesDisplay.tsx:35 | lower-casing twice is lower-casing once |
| Text.LowerKeepsWhitespace | client/src/components/ProfilesDisplay.tsx:35 | lower-casing maps whitespace to whitespace and non-whitespace to non-whitespace |
| Text.TrimCommutesWithLower | client/src/components/ProfilesDisplay.tsx:35 | trimming then lower-casing equals lower-casing then trimming |
| Text.Split | server/src/love.ts:103-105 | a split always has at least one piece |
| Text.SplitJoinRoundTrip | server/src/love.ts:103-105 | joining the pieces of a split with the separator gives back the input |
| Text.SplitPiecesAvoidSeparator | server/src/love.ts:103-105 | no piece of a split contains the separator |
| Text.SplitCountsSeparators | server/src/love.ts:103-105 | a split has one piece more than the input has separators |
| Dialogue.FlipAll | server/src/love.ts:107-111 | flipping keeps length, content and sender of every message and swaps user and assistant in each |
| Dialogue.FlipAllInvolution | server/src/love.ts:107-111 | flipping the roles twice restores the transcript |
| Dialogue.FlipAllAppend | server/src/love.ts:107-111 | flipping a transcript with one more message flips the old part and the new message separately |
| Dialogue.Transcript.constructor | server/src/love.ts:41 | a new transcript is empty |
| Dialogue.Transcript.Push | server/src/love.ts:66-70 | pushing appends exactly one message and changes nothing else |
| Dialogue.Transcript.FlipRoles | server/src/love.ts:107-111 | the in-place loop leaves the transcript equal to the role-flipped old transcript |
| Dialogue.WordCount | server/src/love.ts:103-105 | every text counts at least one word |
| Dialogue.WordCountIsSpacesPlusOne | server/src/love.ts:103-105 | the word count is the number of spaces plus one |
| Dialogue.RandomInt | server/src/love.ts:114 | the draw lies in the inclusive range [min, max] |
| Dialogue.GirlTurnStep | server/src/love.ts:66-71 | pushing the girl's reply as assistant and flipping all roles gives the closed-form transcript with one more entry |
| Dialogue.BoyTurnStep | server/src/love.ts:91-95 | pushing the boy's reply as user gives the closed-form transcript with one more entry |
| Dialogue.Speak | server/src/love.ts:66-95 | a turn's push (and flip on the girl's turn) moves the transcript from the closed form for n replies to the one for n+1 |
| Dialogue.RolesAlternateByPair | server/src/love.ts:66-95 | in any transcript, the two messages of every complete round (the newest one included) share a role, and messages two apart have opposite roles |
| Dialogue.RequestCarriesReplies | server/src/love.ts:52-87 | request c goes to the girl (system prompt, then the opening line as user) when c is even and to the boy (system prompt) otherwise, then carries the transcript after c replies entry by entry, each with its current role and content, so its contents are the first c replies in order |
| Dialogue.GirlRequest | server/src/love.ts:52-62 | builds the girl's `llm.chat` request; its shape is stated by `Dialogue.RequestCarriesReplies` and `Dialogue.GirlRequestIsNext` |
| Dialogue.BoyRequest | server/src/love.ts:81-87 | builds the boy's `llm.chat` request; its shape is stated by `Dialogue.RequestCarriesReplies` and `Dialogue.BoyRequestIsNext` |
| Dialogue.RequestAt | server/src/lover.ts:34-63 | the request of call number c, the girl's for even c and the boy's for odd c; `Dialogue.RequestCarriesReplies` states what it carries and `Dialogue.RequestsUpToAt` that the loops make exactly these requests |
| Dialogue.GirlRequestIsNext | server/src/love.ts:52-62 | on the girl's turn the next request is the girl's request built from the current transcript |
| Dialogue.BoyRequestIsNext | server/src/love.ts:81-87 | on the boy's turn the next request is the boy's request built from the current transcript |
| Dialogue.RequestsUpToAt | server/src/love.ts:48-100 | the i-th request made by the loop is the closed-form request for i replies |
| Dialogue.EmissionsAt | server/src/love.ts:72-99 | the k-th reply is reported with the girl's name when k is even and the boy's name when k is odd |
| Dialogue.RecordEmissionOrder | server/src/love.ts:44-99 | the `onMessage` calls are the opening line under the boy's name followed by every transcript entry in order |
| Love.LoveController.constructor | server/src/love.ts:11 | a new controller is not stopped |
| Love.LoveController.Stop | server/src/love.ts:12-14 | after `stop` the flag is set, and stopping twice changes nothing |
| Love.StoppedAtMonotone | server/src/love.ts:10-18 | once a check sees the flag set, every later check sees it set |
| Love.RandomWaitTimeMs | server/src/love.ts:116-118 | the wait never exceeds min(50 ms per word, 2000 ms), is at least min(40 ms per word, 2000 ms), and is either the cap or a draw between 40 and 50 ms per word |
| Love.LoveDelay | server/src/love.ts:72-74 | the sleep is never negative and never less than the wait minus the elapsed time, and equals that difference unless it is 0, so it is max(0, wait − elapsed); it is at most 2000 ms when the clock is monotone |
| Love.RunLength | server/src/love.ts:48-100 | a loop exit state has as many entries as the least of the limit, the oracle's replies and the stop cut |
| Love.LoveDelaysAt | server/src/love.ts:72-98 | the k-th sleep belongs to the k-th reply, is never negative, and is at most 2000 ms when the clock is monotone |
| Love.HaltedRun | server/src/love.ts:48-100 | an early exit has length min(limit, replies, stop cut), failed exactly when the oracle ran out before a stop, and made one more request than entries only on failure |
| Love.RunSummary | server/src/love.ts:48-100 | any loop exit (the limit or an early break) obeys the length, outcome and request-count formulas |
| Love.Accept | server/src/love.ts:66-75 | after a reply the transcript, the `onMessage` calls and the sleeps all grow by one step of the closed form |
| Love.Turn | server/src/love.ts:49-75 | one half-round either stops before asking, fails after asking, or pushes one reply, and the record stays in closed form |
| Love.Round | server/src/love.ts:48-100 | a round adds two entries and two requests, or ends the run with the counts the stop checks and the oracle dictate |
| Love.SimulateLove | server/src/love.ts:30-101 | the run's transcript, requests, calls and sleeps match the closed form, its length is min(300, replies, stop cut), and it finished, failed or stopped exactly as the flag and the oracle say |
| LoverLoop.LoverDelay | server/src/lover.ts:52-54 | the sleep is never negative and exceeds the elapsed time by 25 to 50 ms per word |
| LoverLoop.LoverDelaysAt | server/src/lover.ts:52-71 | the k-th sleep belongs to the k-th reply and is never negative |
| LoverLoop.Accept | server/src/lover.ts:46-54 | after a reply the transcript, the `onMessage` calls and the sleeps all grow by one step of the closed form |
| LoverLoop.Turn | server/src/lover.ts:33-54 | one half-round makes one request, and pushes the reply unless the call is rejected |
| LoverLoop.Round | server/src/lover.ts:32-73 | a round adds two entries and two requests, or fails with every reply pushed and one extra request |
| LoverLoop.RunSummary | server/src/lover.ts:32-73 | any loop exit has min(300, replies) entries, finishes exactly when there are 300 replies, and otherwise made one extra request |
| LoverLoop.PutOn | server/src/lover.ts:17-74 | the run matches the closed form, pushes min(300, replies) entries, never stops, and finishes exactly when the oracle has 300 replies |
| Server.Recent | server/src/index.ts:142-147 | the kept history is the last min(k, n) entries of everything pushed |
| Server.RecentAppend | server/src/index.ts:144-147 | push-then-shift-on-overflow keeps exactly the last k entries of everything ever pushed |
| Server.Server.constructor | server/src/index.ts:10-19 | the server starts with an empty history, no clients and nothing sent |
| Server.Server.Connect | server/src/index.ts:21-30 | a connection joins the client set and receives one `init` packet holding the names and the current history |
| Server.Server.Close | server/src/index.ts:32-34 | closing removes exactly that client and sends nothing |
| Server.Server.Broadcast | server/src/index.ts:38-49 | exactly the connected clients that are open receive one `message` packet, and nothing else changes |
| Server.Server.OnMessage | server/src/index.ts:142-149 | the callback records the message, keeps the history to the last 10 messages, and broadcasts it to every open client |
| Server.HistoryBounded | server/src/index.ts:10-11 | the history never holds more than 10 entries, ends with the newest message, and is the tail of all messages |
| LiveChat.SpacedApart | client/src/components/LiveChat.tsx:34-35 | send times that are pairwise spaced are at least 1000 ms per step apart |
| LiveChat.SpacedAppend | client/src/components/LiveChat.tsx:34-35 | a send at least 1000 ms after the last keeps the times spaced |
| LiveChat.LiveChat.constructor | client/src/components/LiveChat.tsx:12-16 | a mounted chat has no messages and empty input, and its last send time is the mount time |
| LiveChat.LiveChat.SetInput | client/src/components/LiveChat.tsx:13 | typing replaces the input and changes nothing else |
| LiveChat.LiveChat.Submit | client/src/components/LiveChat.tsx:32-42 | a submit is accepted exactly when the trimmed input is non-empty and 1000 ms have passed; an accepted submit sends the trimmed text, records the time and clears the input, and a rejected one changes nothing |
| LiveChat.LiveChat.OnChatBroadcast | client/src/components/LiveChat.tsx:18-26 | a broadcast appends its entries to the messages in order and changes nothing else |
| LiveChat.SendsSpaced | client/src/components/LiveChat.tsx:32-42 | any two sends are at least 1000 ms per intervening send apart, and the i-th send is at least 1000 (i+1) ms after mount |
| Notifications.Without | client/src/components/NotificationCenter.tsx:17 | filtering keeps exactly the notifications whose id differs |
| Notifications.WithoutAppend | client/src/components/NotificationCenter.tsx:17 | filtering distributes over appending one notification |
| Notifications.WithoutAbsent | client/src/components/NotificationCenter.tsx:17 | filtering an id that is not present changes nothing |
| Notifications.WithoutKeepsOrder | client/src/components/NotificationCenter.tsx:17 | filtering keeps the ids strictly increasing |
| Notifications.NotificationCenter.constructor | client/src/components/NotificationCenter.tsx:8-9 | the centre starts with no notifications and next id 0 |
| Notifications.NotificationCenter.OnNotification | client/src/components/NotificationCenter.tsx:12-15 | a notification gets the next id, the counter advances, and the notification is appended |
| Notifications.NotificationCenter.Expire | client/src/components/NotificationCenter.tsx:16-18 | expiry removes exactly the notification with that id and keeps the rest in order |
| Notifications.AddThenExpire | client/src/components/NotificationCenter.tsx:12-18 | adding a notification and then expiring it restores the list as it was before |
| ProfileColors.ToInt32 | client/src/components/ProfilesDisplay.tsx:7 | the 32-bit wrap lands in [-2^31, 2^31) and is congruent to its argument modulo 2^32 |
| ProfileColors.HashStep | client/src/components/ProfilesDisplay.tsx:7 | one pass of the loop body; `ProfileColors.HashStepCongruent` states it |
| ProfileColors.HashStepCongruent | client/src/components/ProfilesDisplay.tsx:7 | `c + ((hash << 5) - hash)` equals hash * 31 + c up to a multiple of 2^32 |
| ProfileColors.Hash | client/src/components/ProfilesDisplay.tsx:6-7 | the loop's hash over the whole string; `ProfileColors.HashAgreesWithPolyHash` and `ProfileColors.HashMagnitude` state its value and size, and `ProfileColors.StringToColor` that the loop computes it |
| ProfileColors.HashAgreesWithPolyHash | client/src/components/ProfilesDisplay.tsx:6-7 | the hash is congruent modulo 2^32 to the polynomial hash (each character added to 31 times the hash so far) and wraps to the same 32-bit value |
| ProfileColors.HashMagnitude | client/src/components/ProfilesDisplay.tsx:7 | the hash of s is bounded by \|s\| times (2^31 + the largest code point) |
| ProfileColors.Hue | client/src/components/ProfilesDisplay.tsx:8 | the hue lies in [0, 360) |
| ProfileColors.Decimal | client/src/components/ProfilesDisplay.tsx:9 | the printed number is a non-empty string of decimal digits without a leading zero ("0" only for 0) |
| ProfileColors.DecimalRoundTrip | client/src/components/ProfilesDisplay.tsx:9 | reading the printed digits back gives the number |
| ProfileColors.StringToColor | client/src/components/ProfilesDisplay.tsx:5-10 | the hash loop produces the `hsl(h, 70%, 50%)` colour of the string's hue |
| ProfileColors.EmptyHashesToZero | client/src/components/ProfilesDisplay.tsx:5-10 | the empty string hashes to 0 and is coloured `hsl(0, 70%, 50%)` |
| ProfileColors.NormalizeIdempotent | client/src/components/ProfilesDisplay.tsx:35 | normalising a key twice is normalising it once |
| ProfileColors.EthnicityToColor | client/src/components/ProfilesDisplay.tsx:12-37 | the colour is never empty, so the fallback after `map[key]` runs only on a miss; `ProfileColors.TableHit` and `ProfileColors.UnknownKeyFallsBack` state both branches |
| ProfileColors.TableHit | client/src/components/ProfilesDisplay.tsx:13-36 | a normalised key in the table returns its non-empty entry |
| ProfileColors.UnknownKeyFallsBack | client/src/components/ProfilesDisplay.tsx:36 | any other key gets the hash colour of the normalised key |
| ProfileColors.EthnicityIgnoresCaseAndSpace | client/src/components/ProfilesDisplay.tsx:35-36 | the colour depends only on the trimmed, lower-cased text |
| ProfileColors.VietnameseIsYellow | client/src/components/ProfilesDisplay.tsx:17 | " Vietnamese " normalises to a table hit and gets "#ffde59" |

## Left out

- Sockets, JSON text, React rendering and effects, `setTimeout`, and the interleaving of async callbacks are not modelled. A packet is a datatype value, and a callback runs when its method is called.
- The completion provider (`server/src/llm.ts`), `selectProvider`, the interactive prompt and `server/src/cli.ts` are not part of this model. The provider is the `replies` oracle.
- The persona definitions imported from `./lovers` and the helper `client/src/util/color` are not part of this model.
- `Love.SimulateLove`, `LoverLoop.PutOn`: the `sleep` arguments, the requests and the `onMessage` calls are three separate sequences, not one interleaved trace of effects.
- `Love.SimulateLove`: the stop flag is the index of the first check that sees it set, not a field that another task can change while the loop awaits.
- `server/src/index.ts:142` passes six arguments to the five-parameter `putOn`, so the fifth parameter, `onMessage`, receives 0.3. `Server.Server.OnMessage` models the callback as the one evidently meant for `onMessage`. What happens when a number is called as a function is not modelled.
- `Dialogue.RequestCarriesReplies`: the transcript entries spread into a request keep their `senderName` field in the source (`as Message[]` is only a type cast). The model's request messages hold role and content only, so what the completion provider does with the extra field is not modelled.
- The similarity ratio (`server/src/util.ts:20`) and the `Math.random()` draws (`server/src/love.ts:114`, `server/src/lover.ts:15`) are exact reals in the model, not IEEE doubles. The proved properties (range, symmetry, 1 exactly on equal strings, the draw's range) do not depend on rounding.
- `Server.Server.Broadcast`: the order in which clients are sent a packet is not modelled, only which clients get one.
- `LiveChat.LiveChat.Submit` reads the clock once, while the source calls `Date.now()` twice: once in the guard and once for the new last-send time.
- `Notifications.NotificationCenter.Expire` may be called at any time. The 2000 ms `setTimeout` delay is not modelled.
- `Text.ToLower` lower-cases ASCII letters only. Other scripts and special cases such as final sigma are not modelled.
- Strings are sequences of characters. JavaScript's UTF-16 code units (in `length`, `charCodeAt` and `a[i]`) differ from them only outside the Basic Multilingual Plane.
- `ProfileColors.StringToColor` computes the hash with exact integers. JavaScript numbers are doubles, which stop being exact above 2^53. That only matters for strings of millions of characters.
- `ProfileColors.TableHit`: lookups of inherited object keys such as `"constructor"` on the `Record` literal are not modelled. The table is a finite map.
- The `dp` array of `textSimilarity` starts zero-filled, and the nested loops assign every inner cell. The model's table holds only the assigned values.
