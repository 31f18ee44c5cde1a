# Chat screen state and date grouping, in Dafny

This project models the logic of a single-screen chat viewer. The viewer fetches pages of
chat history from a remote endpoint, keeps them in one state record and renders them
grouped under date headers. The model covers four pieces:

- **The state record and its updaters** (`chat_store.dfy`, module `ChatStore`). This is the
  initial `ChatState` and the two updaters that `loadMessages` passes to the state setter.
  After a fetched page, the updater appends the page's `chats`. It takes `from`, `to` and
  `name` from the page when they are non-empty, advances `currentPage` and clears `isLoading`.
  After a failed fetch, the updater sets the fixed error text and clears `isLoading`.
  `Replay` applies a sequence of fetch outcomes in order. The lemmas about it state what
  accumulates over a session.
- **Grouping by date label** (`chat_view.dfy`, module `ChatView`). `GroupMessagesByDate` is
  the one-pass loop that fills a dictionary from label to bucket. It is proved against
  reference functions: `Distinct` (keys in order of first occurrence) and `Bucket` (the
  messages of one label, in input order). Lemmas prove that the grouping is a partition.
  They also prove that buckets are stable and that loading a page only extends them.
- **The time under each message** (`ChatView.DisplayTime`). This is `time.slice(10, -3)`,
  with JavaScript's `slice` rules written out in `JsText.Slice`.
- **The date label** (`date_utils.dfy`, module `DateUtils`). The label is "Today",
  "Yesterday" or `DD/MM/YYYY`. The previous day rolls back across month and year ends, with
  Gregorian leap years. Dates are calendar triples. The caller supplies today's date and
  how a timestamp maps to a local calendar day. The source compares dates through their
  formatted strings, and the model does the same. The formatting is proved injective by
  reading the string back, so the comparison is exactly a comparison of days.

`js_text.dfy` (module `JsText`) states the JavaScript built-ins the code relies on:
`Number.prototype.toString`, `padStart` and `slice`. `chat_types.dfy` holds the records
from `src/types/chat.ts`.

Points of the code's behaviour a reader might not expect:

- `currentPage` advances after every fetched page, including an empty one.
- A later non-empty `from`/`to`/`name` replaces an earlier one. They are not set only once.
- `isLoading` is never set to true. There is no guard against overlapping loads and no
  scroll gate.
- The error text is never cleared by a later success.

## Model

| member | source | states |
|---|---|---|
| `ChatStore.ApplySuccess` | src/components/ChatScreen.tsx:40-48 | old messages are a prefix and the fetched chats follow, length is old plus batch; `currentPage` is old + 1 even for an empty batch; each of `from`/`to`/`name` is the fetched value when non-empty, otherwise the previous one; `isLoading` false; `error` unchanged |
| `ChatStore.ApplyFailure` | src/components/ChatScreen.tsx:50-54 | `error` is "Failed to load messages. Please try again.", `isLoading` false; messages, page, `from`, `to`, `name` unchanged |
| `ChatStore.OrElse` | src/components/ChatScreen.tsx:42-44 | the JavaScript or-operator on strings: the fetched value when non-empty, else the previous one; the result is non-empty iff either is |
| `ChatStore.LoadMessages` | src/components/ChatScreen.tsx:37-55 | the page requested is `currentPage`; the result is exactly the failure updater's or the success updater's result for that page; on failure messages, page, `from`, `to` and `name` stay and the error is set; on success the page's chats are appended, the page advances and `from`/`to`/`name` take the page's non-empty values; never left loading |
| `ChatStore.ReplayAppendsBatches` | src/components/ChatScreen.tsx:45 | over any sequence of outcomes, messages are the old messages followed by every fetched batch in fetch order (append-only) |
| `ChatStore.ReplayCountsPages` | src/components/ChatScreen.tsx:46 | `currentPage` grows by exactly the number of fetched pages, empty ones included, and not on failures |
| `ChatStore.ReplayKeepsError` | src/components/ChatScreen.tsx:40-54 | `error` is the fixed text exactly when some fetch failed, otherwise its starting value; success never clears it |
| `ChatStore.ReplayHeader` | src/components/ChatScreen.tsx:42-44 | a non-empty `from`/`to`/`name` never becomes empty again, and each always holds its starting value or the value of some fetched page |
| `ChatStore.ReplayFromInitialState` | src/components/ChatScreen.tsx:23-31 | from the initial state, messages are exactly the fetched batches and `currentPage` the number of fetched pages |
| `ChatView.GroupMessagesByDate` | src/components/ChatScreen.tsx:102-116 | keys are the distinct labels in order of first occurrence; each bucket is the in-order list of messages with that label; every bucket is non-empty; every message is in the bucket of its own label; bucket sizes sum to the input length |
| `ChatView.Labels` | src/components/ChatScreen.tsx:107 | one label per message, the label of that message's timestamp |
| `ChatView.Distinct` | src/components/ChatScreen.tsx:108-110 | no key twice, and exactly the labels that occur |
| `ChatView.DistinctInFirstOccurrenceOrder` | src/components/ChatScreen.tsx:121 | keys are listed in the order in which their labels first occur in the input |
| `ChatView.DistinctOfAppend` | src/components/ChatScreen.tsx:108-110 | keys already created keep their place when more messages arrive |
| `ChatView.Bucket` | src/components/ChatScreen.tsx:111 | a bucket holds only messages of its label and is no longer than the input |
| `ChatView.BucketMultiset` | src/components/ChatScreen.tsx:105-115 | each message occurs in its label's bucket as often as in the input, and in no other bucket |
| `ChatView.BucketNonEmpty` | src/components/ChatScreen.tsx:108-111 | a bucket is non-empty iff its label occurs in the input |
| `ChatView.BucketOfAppend` | src/components/ChatScreen.tsx:111 | the bucket of a concatenation is the concatenation of buckets: the order within a bucket is the input order |
| `ChatView.BucketSizesSumToLength` | src/components/ChatScreen.tsx:105-115 | the buckets of the distinct labels together hold exactly as many messages as the input |
| `ChatView.SameBucketIffSameDay` | src/components/ChatScreen.tsx:107 | with the date labels, two messages share a bucket exactly when their timestamps fall on the same day |
| `ChatView.GroupsAfterLoad` | src/components/ChatScreen.tsx:119 | after a page is appended, each bucket is its old contents followed by the new messages of that label, and the old keys stay in front in the same order |
| `ChatView.DisplayTime` | src/components/ChatScreen.tsx:96 | the shown time has length max(0, len - 13), so it is empty for 13 or fewer characters; otherwise the timestamp is its first 10 characters, the shown text and its last 3 characters |
| `ChatView.DisplayTimeOfDateTime` | src/components/ChatScreen.tsx:96 | for a 19-character `YYYY-MM-DD HH:MM:SS` timestamp the shown text is characters 10 to 15 (separator and `HH:MM`) |
| `JsText.Slice` | src/components/ChatScreen.tsx:96 | `slice(start, end)` has length clamped end minus clamped start (never negative) and holds the characters from the clamped start on |
| `JsText.SliceIndex` | src/components/ChatScreen.tsx:96 | a slice index lands inside the string: a non-negative index within bounds is itself, one past the end is clamped to the length, a negative one counts back from the end and is clamped to 0 |
| `JsText.NatToString` | src/utils/dateUtils.ts:8 | `toString` of a non-negative integer is a non-empty string of digits, one digit iff below 10, with no leading zero |
| `JsText.IntToString` | src/utils/dateUtils.ts:8 | `toString` of an integer starts with a minus sign iff it is negative, and the rest are digits |
| `JsText.DecimalValueOfNatToString` | src/utils/dateUtils.ts:8 | reading the decimal digits of a non-negative integer gives the number back |
| `JsText.SignedDecimalValueOfIntToString` | src/utils/dateUtils.ts:8 | reading a signed integer's text gives the number back |
| `JsText.PadStart` | src/utils/dateUtils.ts:8 | `padStart` gives at least the requested width, ends with the original text, and everything before it is the fill character |
| `JsText.ZeroPad2` | src/utils/dateUtils.ts:8 | a number below 100 is written as exactly two digits |
| `JsText.ZeroPad2RoundTrip` | src/utils/dateUtils.ts:8 | the two-digit text of a number below 100 reads back as that number |
| `DateUtils.DaysInMonth` | src/utils/dateUtils.ts:5 | months have 28 to 31 days; February has 29 iff the year is a leap year; other months have at least 30 |
| `DateUtils.PreviousDay` | src/utils/dateUtils.ts:4-5 | the previous day is a valid date strictly before the given one |
| `DateUtils.PreviousDayIsAdjacent` | src/utils/dateUtils.ts:4-5 | no valid date lies strictly between the previous day and the day itself |
| `DateUtils.PreviousDayRollsOver` | src/utils/dateUtils.ts:4-5 | 1 March goes to 28 or 29 February by the leap-year rule (every fourth year, except centuries not divisible by 400); 1 January goes to 31 December of the year before; 1 May and 1 August go to the last day of April and July |
| `DateUtils.FormatDateString` | src/utils/dateUtils.ts:7-9 | the text is two digits of day, a slash, two digits of month, a slash, then the year |
| `DateUtils.FormatDateStringRoundTrip` | src/utils/dateUtils.ts:7-9 | the `DD/MM/YYYY` text reads back as the same day, month (1..12) and year |
| `DateUtils.FormatDateStringInjective` | src/utils/dateUtils.ts:11-17 | two dates have the same text exactly when they are the same day, so comparing texts compares days |
| `DateUtils.LabelIsToday` | src/utils/dateUtils.ts:11-16 | the label is "Today" exactly when the message's day, month and year equal today's |
| `DateUtils.LabelIsYesterday` | src/utils/dateUtils.ts:13-18 | the label is "Yesterday" exactly when the message date is not today and is the day before today |
| `DateUtils.LabelIsDate` | src/utils/dateUtils.ts:19-24 | any other date is labelled with its own `DD/MM/YYYY` text, which reads back as that date |
| `DateUtils.LabelInjective` | src/utils/dateUtils.ts:1-25 | two dates get the same label exactly when they are the same day, so the label depends on the calendar day alone and names exactly one day |
| `DateUtils.LabelIsNotArrayIndex` | src/components/ChatScreen.tsx:121 | every label has a non-digit character, so no label is an array index and `Object.entries` lists the buckets in insertion order |

## Left out

- Rendering is left out: the JSX, the Chakra styling, the popover and the input box that does nothing. They are layout only.
- `fetchChatMessages` (`src/api/ChatApi.tsx`) is not part of this model. It is an HTTP request plus JSON decoding. A fetch is modelled as its outcome: a decoded `ChatPage` or a failure. The response status is never checked, so any JSON body counts as a page.
- Missing or `null` `from`/`to`/`name` in the decoded body are not modelled separately. They are falsy like `""`, so they behave like an empty string. A body without `chats` is not modelled either.
- React lifecycle is left out: `useEffect` with the `useRef` flag, and `useCallback` capturing `chatState.currentPage`. Because of them, only page 0 is ever requested. `Replay` describes what repeated loads would do. The model uses one state both for the page requested and for the updater, while the source uses a captured value for the first and `prevState` for the second.
- `async`/`await` ordering and the discarding of a result after unmount are left out. There is no concurrency to model.
- `new Date(timestamp)` parsing, the local time zone and the clock are parameters. `dateOf` maps a timestamp to its local calendar day, and `today` is today's calendar day. An unparseable timestamp (an "Invalid Date") is not modelled: every date is a valid calendar day.
- `toLocaleDateString('en-GB', …)` is modelled as the same `DD/MM/YYYY` text that `formatDateString` builds. That is what it produces for years 1000 to 9999. The locale's spelling of other years (fewer than four digits, or before year 1) is not modelled.
- `ChatView.GroupMessagesByDate` takes the label function as a parameter (`labelOf`), because the source's `formatMessageDate` reads the clock. `ChatView.DateLabel` is its model, and `ChatView.SameBucketIffSameDay` connects the two.
- `DateUtils.FormatMessageDate` has no contract of its own. Its behaviour is stated by `LabelIsToday`, `LabelIsYesterday`, `LabelIsDate` and `LabelInjective`.
- ChatStore.ReplayHeader: states only that each header field keeps its starting value or takes some fetched value, and is never emptied. It does not state that the last non-empty fetched value wins. `ApplySuccess` states that step by step.
- The clock is read once per grouping pass in the model: `DateLabel(dateOf, today)` uses one `today` for every message. The source reads `new Date()` anew for each message (`src/utils/dateUtils.ts:3`, called per message at `src/components/ChatScreen.tsx:107`), so a pass that crosses midnight can label two messages of the same day "Today" and "Yesterday". `ChatView.SameBucketIffSameDay` holds only for one fixed `today`.
- String positions count Unicode scalar values (Dafny `char`), while JavaScript's `slice` counts UTF-16 code units. The two agree on ASCII timestamps; a timestamp with characters outside the Basic Multilingual Plane would be cut at different places.
- `src/main.tsx` and `src/App.tsx` are left out. They do service-worker registration, DOM mounting and wrapping.
