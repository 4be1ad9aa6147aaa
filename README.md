# picoclaw-dashboard: a Dafny model of its sequential core

picoclaw-dashboard is a small Go web dashboard for a host that runs the
`picoclaw` systemd service. It shows the service's journal, as a batch and as
a live stream of server-sent events, and reports and controls the service's
state. It pushes updates to browsers over WebSocket, and lets a browser
inspect and edit files below one base directory.

This project models the parts of it that are sequential logic:

- **Journal parser and filter** (`LogParse`, `pkg/logs/service.go`).
  `journalctl -o cat` output is split into lines. Each line is trimmed, and
  blank lines are skipped. The header pattern
  `^(\d{4}/\d{2}/\d{2} \d{2}:\d{2}:\d{2}) \[.*?\] \[([A-Z]+)\] (.*)` is
  modelled exactly, including the lazy context group and the fact that `.`
  does not match a newline. A line without a header becomes an INFO entry of
  the whole line. A header entry is kept only when it passes the level filter
  (exact) and the search filter (case-insensitive, over message or level).
  Also modelled: the journalctl argument lists and the unit names taken from
  `systemctl list-units`.
- **Log HTTP handlers** (`LogHandler`, `pkg/logs/handler.go`):
  - the hand-written `indexOf`/`contains` substring search;
  - the `lines` default of 100;
  - the `GET /api/logs` response, whose `total` is its entry count;
  - the live stream's own per-entry filter, which is case-sensitive and looks
    at the message only, and the error event that closes a failed follow.
- **WebSocket fan-out hub** (`WebSocketHub`, `websocket/hub.go`). The hub is
  a class with one method per arm of the `Run` loop's `select`:
  - register;
  - unregister;
  - a broadcast that enqueues to every member with room in its 256-slot
    queue and closes and drops every member whose queue is full;
  - the non-blocking `Broadcast` into the 256-slot buffer;
  - `ClientCount`;
  - the receive step of a client's writer.
- **Service status and control** (`ServiceStatus`, `api/service.go`):
  - the `systemctl show` key/value parse into four flags and a textual
    status;
  - the five-second cache, a class whose clock is a parameter;
  - `start`/`stop`/`restart` validation and the cache reset after a
    successful action.
- **Path sandbox and listing** (`Files`, `api/files.go`):
  - `filepath` `Clean`, `Join`, `Abs` and `Rel`, done lexically over
    component sequences;
  - `sanitizePath`;
  - the per-entry classification in `ListFiles`;
  - the checks each file handler makes before it touches the filesystem.

The Go standard-library pieces the parsers rely on live in `Text`
(`TrimSpace`, `Split`, `Join`, `Fields(s)[0]`, `HasPrefix`/`HasSuffix`/
`TrimSuffix`, `ToLower`, `Contains`) and `Decimal` (`strconv.Atoi` for a
64-bit `int`, and `%d`).

Each line of journal output is handled on its own. The code has no
continuation assembly, no sort by time and no merging of equal timestamps
(pkg/logs/service.go:67-109). `LogExample.StackTraceParsed` shows that a
header line, two stack-trace lines and another header line, read together,
give exactly four separate entries in their order.

External commands (`journalctl`, `systemctl`, `sudo`) are function parameters
from an argument list to an `Exit` outcome (standard output, standard error,
optional error text). Time is a parameter: a nanosecond count `now` for the
cache, and a `parseTime` function for `ActiveEnterTimestamp`. A timestamp of
`None` in a `LogEntry` stands for the `time.Now()` fallback.

## Model

Definitions without a contract of their own are listed through the members that specify them:
- `LogParse.ParseLogLine` through `LogParse.ParseLogLineSpec`;
- `LogParse.UnitName` and `LogParse.Units` through `LogParse.UnitNameIff`, `LogParse.ListUnits` and `LogParse.UnitsFromLines`;
- `ServiceStatus.ApplyLine` through `ServiceStatus.FlagStep`, `ServiceStatus.Keeps` and `ServiceStatus.ShowStatus`;
- `Files.Rel` through `Files.RelBelow` and `Files.RelDotDot`;
- `Files.EntryPath` through `Files.EntryPathBelow`;
- `Files.Admission` through `Files.AdmissionMethodFirst`, `Files.AdmissionEmptyPath` and `Files.AdmissionInside`.

| member | source | states |
|---|---|---|
| Text.TrimSpace | pkg/logs/service.go:68 | the result is a contiguous piece of the input; it is empty exactly when the input is all white space; otherwise it neither starts nor ends with white space |
| Text.TrimSpaceCuts | pkg/logs/service.go:68 | only white space is removed: the head that `TrimLeft` drops is all white space, the result starts `TrimLeft(s)`, and what follows it there is all white space |
| Text.Split | pkg/logs/service.go:60 | there is always at least one piece, and no piece holds the separator |
| Text.JoinSplit | pkg/logs/service.go:60 | joining the pieces with the separator gives back the input, so lines are neither lost nor reordered |
| Text.SplitJoin | api/service.go:50 | splitting pieces that were joined, none holding the separator, gives back those pieces |
| Text.FirstField | pkg/logs/service.go:198-199 | there is no first field exactly when the line is all white space; a first field is non-empty, starts the line once leading white space is dropped, holds no white space and runs up to the next white space or the end |
| Text.TrimSuffix | pkg/logs/service.go:200 | with the suffix present, the result followed by the suffix is the input; otherwise the input is unchanged |
| Text.ToLower | pkg/logs/service.go:99-100 | the length is kept, and each character is mapped on its own |
| Decimal.Atoi | pkg/logs/handler.go:36 | a parsed value lies within 64-bit `int` range; only digits, or a `+` or `-` followed by at least one digit and then digits only, can parse; the empty text does not |
| Decimal.AtoiForms | pkg/logs/handler.go:36 | digits parse to their value exactly when it is at most 2^63-1; a leading `+` changes nothing; a leading `-` gives the negated value exactly when it is at least -2^63 |
| Decimal.FormatNat | pkg/logs/service.go:39 | `%d` of a non-negative count is non-empty, all digits, with no leading zero |
| Decimal.AtoiFormat | pkg/logs/service.go:39 | `Atoi` reads back the exact count `%d` wrote, for any count in `int` range |
| LogParse.UpperRun | pkg/logs/service.go:65 | `[A-Z]+` runs as far as it can: every character it takes is an upper-case letter, and the next one is not |
| LogParse.LineRest | pkg/logs/service.go:65 | `(.*)` captures the longest prefix without a newline |
| LogParse.FindCtx | pkg/logs/service.go:65 | a match keeps the 19-character time stamp as its first group |
| LogParse.MatchHeader | pkg/logs/service.go:65-74 | a match's stamp has the `\d{4}/\d{2}/\d{2} \d{2}:\d{2}:\d{2}` shape |
| LogParse.SplitsTail | pkg/logs/service.go:65 | once the context is fixed, the level and message of a reading of the line are determined |
| LogParse.FindCtxSound | pkg/logs/service.go:65 | whatever the matcher returns is a reading of the line as stamp, context, level and message |
| LogParse.SplitsUnique | pkg/logs/service.go:65 | two readings with equally long contexts are the same reading |
| LogParse.FindCtxComplete | pkg/logs/service.go:65 | whenever some reading exists, the matcher finds one whose context is no longer |
| LogParse.MatchHeaderIff | pkg/logs/service.go:65-74 | the match is exactly the reading with the shortest context (the lazy `.*?`), in both directions |
| LogParse.MatchHeaderNone | pkg/logs/service.go:73-74 | there is no match exactly when no reading of the line exists |
| LogParse.ParseStamp | pkg/logs/service.go:85-88 | a stamp parses exactly when its month is 1-12, its day lies within that month (leap years included), its hour is below 24 and its minutes and seconds are below 60, and then to the date and time its digits spell |
| LogParse.ParseStampText | pkg/logs/service.go:85-88 | every date and time in range with a four-digit year is read back from its own `2006/01/02 15:04:05` text |
| LogParse.StampTextParse | pkg/logs/service.go:85-88 | a stamp that parses is exactly the text of the date and time it parses to |
| LogParse.ParseLogLineSpec | pkg/logs/service.go:160-182 | `parseLogLine` is never nil: a line with no reading becomes INFO with the whole line; otherwise it carries the shortest-context reading's level and message and its parsed stamp |
| LogParse.ParsedStep | pkg/logs/service.go:67-109 | one more line extends the parse by that trimmed line's entry when it is kept, and by nothing otherwise |
| LogParse.ParsedOne | pkg/logs/service.go:67-109 | a list of one line parses as that line alone: its own entry or nothing |
| LogParse.LineParseSpec | pkg/logs/service.go:67-108 | a blank line gives nothing; a line with no header gives its INFO entry whatever the filter; a header line gives its entry exactly when it passes the level and search tests |
| LogParse.ParseLogs | pkg/logs/service.go:59-112 | the loop returns the reference parse of the output's lines |
| LogParse.ParsedAppend | pkg/logs/service.go:67-109 | the parse of two runs of lines is the concatenation of their parses, so entries keep the order of their lines |
| LogParse.ParsedBound | pkg/logs/service.go:60-71 | there are at most as many entries as non-blank lines, and no more non-blank lines than lines |
| LogParse.ParsedLevel | pkg/logs/service.go:94-96 | under a level filter every entry has that level, or is the INFO entry of a line without header |
| LogParse.ParsedSearch | pkg/logs/service.go:98-102 | under a search filter every entry holds the search text case-insensitively in its message or level, or is the INFO entry of a line without header |
| LogParse.ParsedSubsequence | pkg/logs/service.go:67-109 | the filtered parse is a subsequence of the unfiltered parse, in the same order |
| LogParse.ParsedUnfiltered | pkg/logs/service.go:67-109 | with no level or search filter there is one entry per non-blank line, each the `parseLogLine` (lines 160-182) of that trimmed line, in order |
| LogParse.JournalArgs | pkg/logs/service.go:26-40 | the arguments begin with `-u unit -o cat --no-pager`, add `--since S` exactly when `Since` is set and `-n N` exactly when `Lines > 0`, and `N` reads back as `Lines` |
| LogParse.FollowArgs | pkg/logs/service.go:116-121 | the follow arguments are the fixed ones of `GetLogs` followed by `-f` |
| LogParse.GetLogs | pkg/logs/service.go:24-56 | a failing journalctl gives `journalctl error: <err>: <stderr>`; otherwise the result is the reference parse of its standard output |
| LogParse.UnitNameIff | pkg/logs/service.go:198-200 | a line names unit `u` exactly when its first field is `u` followed by `.service` |
| LogParse.ListUnits | pkg/logs/service.go:194-202 | the loop returns the reference unit list of the output's lines |
| LogParse.UnitsFromLines | pkg/logs/service.go:197-202 | there are at most as many units as lines, and every unit is named by one of the lines |
| LogParse.GetLogUnits | pkg/logs/service.go:185-205 | a failing systemctl gives `systemctl error: <err>`; otherwise the result is the unit names of its output, in line order |
| LogExample.ErrorLineHeader | pkg/logs/service.go:65 | a concrete ERROR header line is read as stamp, context `x`, level `ERROR` and message `boom` |
| LogExample.InfoLineHeader | pkg/logs/service.go:65 | a concrete INFO header line is read as stamp, context `x`, level `INFO` and message `ok` |
| LogExample.SplitsConcat | pkg/logs/service.go:65 | a line assembled as stamp, ` [`, context, `] [`, level, `] `, message has a reading of exactly those pieces |
| LogExample.CtxNonEmpty | pkg/logs/service.go:65 | when the character after `stamp [` is not `]`, no reading of the line has an empty context |
| LogExample.TrimError | pkg/logs/service.go:68 | trimming leaves the example ERROR line as it is |
| LogExample.TrimInfo | pkg/logs/service.go:68 | trimming leaves the example INFO line as it is |
| LogExample.TrimTrace | pkg/logs/service.go:68 | trimming leaves the two stack-trace lines as they are |
| LogExample.TraceLines | pkg/logs/service.go:73-82 | a stack-trace line has no header, becomes an INFO entry of the whole line, and is kept under any filter |
| LogExample.ErrorStamp | pkg/logs/service.go:85 | the ERROR line's stamp parses to 2024-01-01 10:00:00 |
| LogExample.InfoStamp | pkg/logs/service.go:85 | the INFO line's stamp parses to 2024-01-01 10:00:01 |
| LogExample.HeaderLines | pkg/logs/service.go:84-96 | the two header lines give entries with their parsed times, and each is kept exactly when it passes the filter |
| LogExample.StackTrace | pkg/logs/service.go:67-109 | with no level or search filter, an ERROR line, two stack-trace lines and an INFO line each give an entry of their own; the trace lines become INFO entries of their whole text |
| LogExample.StackTraceParsed | pkg/logs/service.go:67-109 | the four lines read together give exactly those four entries, in order; the trace lines are not joined to the ERROR entry |
| LogExample.ParsedSplit | pkg/logs/service.go:67-109 | four lines give, in order, what each gives on its own |
| LogExample.ParsedFour | pkg/logs/service.go:67-109 | four lines that each give one entry give those four entries in order |
| LogHandler.IndexOf | pkg/logs/handler.go:155-162 | the result is -1 or a position where `t` occurs; no earlier position has `t`; it is -1 exactly when `t` occurs nowhere |
| LogHandler.Contains | pkg/logs/handler.go:151-153 | the length test, the equality test and `indexOf` together decide exactly whether `t` is a contiguous piece of `s` |
| LogHandler.ContainsEmpty | pkg/logs/handler.go:151-153 | every text contains the empty text, the empty text included |
| LogHandler.ContainsFold | pkg/logs/service.go:99-100 | a case-sensitive occurrence is also a case-insensitive one |
| LogHandler.QueryGet | pkg/logs/handler.go:35 | a missing key reads as "" |
| LogHandler.ResolveLines | pkg/logs/handler.go:34-39 | the count is always positive and in `int` range; it is the parsed value when that is above zero, and 100 otherwise |
| LogHandler.ResolveLinesFormat | pkg/logs/handler.go:34-39 | any positive count written in decimal is taken as given |
| LogHandler.RequestFilter | pkg/logs/handler.go:42-47 | the filter's `Lines` is positive, and its level, since and search are the query's values |
| LogHandler.HandleGetLogs | pkg/logs/handler.go:29-69 | a failing journalctl gives a 500 with the error text; otherwise the entries are the reference parse of its output for the query's filter, `total` equals the number of entries, and `unit` is the service's unit |
| LogHandler.Admit | pkg/logs/handler.go:128-135 | an entry is sent exactly when the level is unset or equal, and the search is unset or occurs case-sensitively in the message |
| LogHandler.ErrorEvent | pkg/logs/handler.go:138-144 | the final event has level ERROR and message `Log stream error: ` followed by the error |
| LogHandler.StreamLogs | pkg/logs/handler.go:88-149 | an `Accept` other than `text/event-stream` gives a 406 before anything is streamed; no flusher gives a 500; otherwise the events are those of the admitted chunks, in order, then exactly one error event when following failed |
| LogHandler.StreamEventsAppend | pkg/logs/handler.go:126-136 | the events of two runs of chunks concatenate, so arrival order is kept |
| LogHandler.StreamEventsPass | pkg/logs/handler.go:128-135 | every sent event passes the stream filter, and there are no more events than chunks |
| LogHandler.PlainLineFilters | pkg/logs/handler.go:128-131 | a line without header is kept by the batch parse under any level filter, but dropped by the stream under a level other than INFO |
| LogHandler.HeaderStreamKept | pkg/logs/handler.go:128-135 | whatever the stream admits, the batch parse keeps under the same level and search |
| LogHandler.StreamSearchCase | pkg/logs/handler.go:132 | the stream's search is case-sensitive where the batch parse's is not: `boom` is found in `BOOM` by one and not the other |
| WebSocketHub.Registered | websocket/hub.go:47-48 | the client becomes a member, with an empty queue when it is new; nothing else changes |
| WebSocketHub.Unregistered | websocket/hub.go:51-56 | a present client stops being a member and its queue is closed; an absent client leaves the state unchanged |
| WebSocketHub.Full | websocket/hub.go:65-71 | the members whose queue is full, and only those |
| WebSocketHub.Fanout | websocket/hub.go:65-72 | every member with room gets the message at the tail of its queue; every member with a full queue is closed and removed; every other queue is unchanged |
| WebSocketHub.PartialNone | websocket/hub.go:65-72 | before any member is served the state is unchanged |
| WebSocketHub.PartialAll | websocket/hub.go:65-72 | once every member is served the state is the fan-out |
| WebSocketHub.PartialStep | websocket/hub.go:65-71 | serving one more member appends to its queue when there is room, and closes and removes it when there is none |
| WebSocketHub.FanoutAll | websocket/hub.go:58-72 | any sequence of broadcasts keeps the hub invariant, so no queue exceeds 256 |
| WebSocketHub.RegisterInv | websocket/hub.go:47-48 | registering keeps the hub invariant |
| WebSocketHub.UnregisterInv | websocket/hub.go:51-56 | unregistering keeps the hub invariant |
| WebSocketHub.FanoutInv | websocket/hub.go:65-72 | a fan-out keeps the hub invariant; in particular no queue grows beyond its capacity |
| WebSocketHub.RegisterMember | websocket/hub.go:47-48 | registering an existing member changes nothing |
| WebSocketHub.UnregisterIdempotent | websocket/hub.go:51-56 | unregistering twice is unregistering once |
| WebSocketHub.CloseOnce | websocket/hub.go:52-70 | a fan-out closes only queues that were open, and a later unregister of a dropped client changes nothing (the presence test at line 52) |
| WebSocketHub.FanoutAllMember | websocket/hub.go:65-67 | a member with room for a run of broadcasts stays a member and gets all of them, in order, after what its queue held |
| WebSocketHub.FanoutAllOutsider | websocket/hub.go:65-72 | broadcasts never touch a client that is not a member: its queue is unchanged and it stays closed |
| WebSocketHub.ServeAll | websocket/hub.go:65-72 | the member-by-member loop, in any visiting order, produces exactly the fan-out |
| WebSocketHub.Hub.constructor | websocket/hub.go:33-40 | a new hub has no clients and an empty broadcast buffer |
| WebSocketHub.Hub.Register | websocket/hub.go:47-48 | the hub's state becomes `Registered` of the old state; the buffer is unchanged |
| WebSocketHub.Hub.Unregister | websocket/hub.go:51-56 | the hub's state becomes `Unregistered` of the old state; the buffer is unchanged |
| WebSocketHub.Hub.RunBroadcast | websocket/hub.go:58-72 | the oldest buffered message is consumed; a failed marshal changes nothing else; otherwise the state becomes the fan-out of the marshalled bytes |
| WebSocketHub.Hub.Broadcast | websocket/hub.go:77-83 | never blocks: the message is appended when the buffer has fewer than 256 messages and dropped otherwise; the clients are untouched |
| WebSocketHub.Hub.ClientCount | websocket/hub.go:85-87 | the count is the number of members |
| WebSocketHub.Hub.Receive | websocket/hub.go:125-134 | the writer gets the oldest queued message, or learns of the close once a closed queue is drained |
| ServiceStatus.KeyValue | api/service.go:55-59 | a line splits exactly when it holds `=`; the key has no `=` and key, `=` and value make up the line |
| ServiceStatus.KeyValueFirst | api/service.go:55 | only the first `=` splits: a value may itself hold `=` |
| ServiceStatus.IgnoredLine | api/service.go:52-74 | a line without `=`, or with a key outside the five, leaves the response unchanged |
| ServiceStatus.LastValue | api/service.go:50-75 | a found value is the value of a line with that key after which no line has the key; there is no value exactly when no line has the key |
| ServiceStatus.FlagLast | api/service.go:61-69 | a flag is decided by the last line when that line carries its key, and by the lines before it otherwise |
| ServiceStatus.FlagStep | api/service.go:61-74 | one line sets at most the flag whose key it carries, and never the status or the timestamp |
| ServiceStatus.Tracks | api/service.go:50-75 | a field that each line updates like a flag ends up decided by the last line with its key |
| ServiceStatus.Keeps | api/service.go:50-75 | the line loop never changes the status or the timestamp |
| ServiceStatus.FlagsFromLastValue | api/service.go:50-75 | each of the four flags is decided by the last line carrying its key, and keeps its initial value when there is none |
| ServiceStatus.StatusText | api/service.go:78-84 | `Running` exactly when active and running, `Active` exactly when active and not running, `Stopped` exactly when not active (running without active included) |
| ServiceStatus.ParseShow | api/service.go:46-84 | the loop and the status derivation give the reference response of the output |
| ServiceStatus.ShowStatus | api/service.go:46-84 | `Active` iff the last `ActiveState` is `active`, `Running` iff the last `SubState` is `running`, `Loaded` iff the last `LoadState` is `loaded`, `Enabled` iff the last `UnitFileState` is `enabled`; the status follows from `Active` and `Running`; the timestamp is the time of the call |
| ServiceStatus.ControlArgs | api/service.go:102-111 | an action is accepted exactly when it is `start`, `stop` or `restart`, and then runs `sudo -n systemctl <action> picoclaw` |
| ServiceStatus.StatusCache.constructor | api/service.go:27-30 | the cache starts with the zero response and the zero time |
| ServiceStatus.StatusCache.GetServiceStatus | api/service.go:33-91 | within five seconds of the last refresh the cached response is returned, no command runs and the cache is unchanged; a failing command gives an error and leaves the cache as it was; otherwise the parsed response is returned and becomes the cache |
| ServiceStatus.StatusCache.ControlService | api/service.go:99-123 | any other action is refused without running a command; a failing command reports its error and output; a successful action resets the cache time |
| ServiceStatus.ControlThenStatus | api/service.go:99-123 | after a successful action the next status call, at any time, reports the outcome of running `systemctl show` rather than the cache |
| ServiceStatus.StatusTwice | api/service.go:33-37 | a status call less than five seconds after one that refreshed the cache answers with that same response, whatever the command would now print |
| Files.Resolve | api/files.go:38-41 | lexical resolution always gives a clean path |
| Files.CleanAbs | api/files.go:41 | cleaning a rooted path gives a clean path |
| Files.Render | api/files.go:38 | the text of a path is rooted |
| Files.Abs | api/files.go:29-41 | `filepath.Abs` gives a clean path |
| Files.Join | api/files.go:38 | joining under a rooted directory gives a rooted path |
| Files.ResolveNames | api/files.go:38 | resolving plain names appends them |
| Files.ResolveAppend | api/files.go:38 | resolving a concatenation resolves its two parts one after the other |
| Files.ResolveKeepsRoot | api/files.go:38 | resolution adds at most one component per piece |
| Files.ResolveClimb | api/files.go:38 | `..` never climbs above the root: after at least as many `..` as the directory has components, the rest resolves as from `/` |
| Files.CleanRender | api/files.go:41 | cleaning the text of a clean path gives back that path |
| Files.JoinClean | api/files.go:38-41 | joining a text under a clean path and cleaning resolves the text's pieces from that path |
| Files.CommonPrefix | api/files.go:46 | the longest common prefix of two paths |
| Files.RelBelow | api/files.go:46 | from a directory to a descendant, `Rel` is the path below the directory (also used at line 90) |
| Files.RelDotDot | api/files.go:46-54 | the relative path starts with `..` exactly when the target is not the base or below it, or its first component below the base starts with `..` |
| Files.SanitizePath | api/files.go:28-57 | an accepted path is clean |
| Files.LandingIsTarget | api/files.go:34-41 | the cleaned target is the base for a root-like path, and otherwise the request's pieces resolved from the base |
| Files.SanitizeRoot | api/files.go:35-36 | `""`, `"/"` and `"."` give the base directory itself |
| Files.SanitizeIff | api/files.go:46-56 | the result is a success exactly when the landing place is the base, or lies below it with a first component not starting with `..`, and that success is the landing place |
| Files.SanitizeInside | api/files.go:46-56 | an accepted path is the base or lies below it |
| Files.SanitizeAbsolute | api/files.go:38-41 | an absolute request `/name` lands inside the base as its own `name` |
| Files.SanitizeEscape | api/files.go:46-54 | `..` from a base below the root is refused with `ErrPermission` |
| Files.SanitizeDotDotName | api/files.go:52 | a first component such as `..cfg` lands inside the base and is still refused, because the test is on the text |
| Files.Classify | api/files.go:85-99 | an entry is `directory` exactly when it is a directory and `file` otherwise; it is hidden exactly when its name starts with `.`; name, size and time are copied |
| Files.EntryPathBelow | api/files.go:90 | for an absolute base, an entry in a directory below the base is listed under its path below the base |
| Files.ListEntries | api/files.go:83-100 | one result per directory entry, in order, each the classification of that entry |
| Files.AdmissionMethodFirst | api/files.go:147-150 | a write that is not PUT, or a mkdir that is not POST (lines 234-237), is refused with 405 whatever the path and body |
| Files.AdmissionEmptyPath | api/files.go:111-114 | read, write (lines 152-156), delete (193-197) and mkdir (239-243) refuse an empty path with 400 before it is sanitized; the listing (62-64) takes it as the base |
| Files.AdmissionInside | api/files.go:116-120 | whatever a handler goes on with is the sanitized path, which is the base or lies below it; the same refusal stands at lines 64-68, 164-168, 199-203 and 245-249 |

## Left out

- Process execution: `exec.CommandContext`, pipes, `Kill` and context cancellation and timeouts. A command is a function from its argument list to its outcome; which command runs and which output feeds the parser are modelled.
- The `FollowLogs` read loop: reading 1024-byte chunks from a pipe until cancellation. The chunks it reads and the error it ends with are inputs to `LogHandler.StreamLogs`. Each chunk is trimmed, skipped when empty, and classified by `parseLogLine`, as the loop does. `FollowLogs` returns when the pipe or the start fails, when a read fails, or when the context ends, and always with an error; the first two cases are `StreamLogs` with no chunks and that error.
- Concurrency: the goroutine that streams events, the `Run` loop's goroutine and the client goroutines. The hub is rendered sequentially, one method per `select` arm. `ClientCount` reads the map without synchronisation in the code; the model has no such race.
- ServiceStatus.StatusCache: the code's cache is two package-level variables (api/service.go:27-30) that concurrent requests read and write with no lock (lines 35-37, 86-87 and 120); the model runs the calls one at a time, so `ControlThenStatus` and `StatusTwice` hold for calls in that order, and interleaved requests that race on the cache are not modelled.
- Logging: the `log.Printf` and `log.Println` calls (for example api/service.go:117 and the hub's connect, disconnect and drop messages) write only to the process log and are left out.
- Transport: the SSE headers and `data:` framing, `http.Flusher` (a boolean input), events sent after the request's context is done, the WebSocket upgrader, `readPump`, `HandleWebSocket` and the socket writes of `writePump`. Only the receive step of `writePump` is modelled, as `Hub.Receive`.
- `json.Marshal` in the hub's `Run` is a parameter that may fail. The marshalling retry in `writePump` and all JSON encoding of responses are left out, including `null` for an empty listing or entry list.
- Route registration, `getUnits`, the service HTTP routes, `api/health.go` (host metrics through a foreign library, floating point), `main.go` and `api/logs.go`: wiring, I/O and foreign calls.
- Filesystem effects of the file handlers (`Open`, `Readdir`, `Stat`, `ReadFile`, `WriteFile`, `MkdirAll`, `Remove`, `RemoveAll`) and the errors they report. `Readdir` is an input list of entries.
- `filepath.Abs` of a relative path depends on the working directory, here a parameter; its error cases (an unreadable working directory) are left out.
- `time.Parse` for the journal stamp is modelled as a validity check of the layout `2006/01/02 15:04:05`. `time.Parse` for `ActiveEnterTimestamp` and `ModTime().Format` are parameters or inputs.
- `time.Now()`: a `None` timestamp in a `LogEntry`, and one reading `now` per `GetServiceStatus` call, used both for the response's timestamp and for the cache time (the code reads the clock twice).
- `ServiceStatus.StatusCache.GetServiceStatus`: the response's `ActiveSince` is an optional number and `None` stands for the zero time; `Timestamp` is `now`.
- `ServiceStatus.StatusCache.ControlService`: `CombinedOutput` is the outcome's `stdout`; the interleaving of standard output and standard error is not modelled.
- Text is a sequence of Unicode scalar values, not of bytes. `LogHandler.IndexOf` and `LogHandler.Contains` count characters rather than bytes; for valid UTF-8 the yes/no answer of `contains` is the same.
- `Text.ToLower`: ASCII letters only; `strings.ToLower`'s full Unicode case mapping is left out, so search results can differ for non-ASCII text.
- `http.Error` adds a newline to its message and sets headers; an error reply is modelled as status and message only.
- `WebSocketHub.ServeAll`: the fan-out loop works on a value copy of the hub's state that `Hub.RunBroadcast` writes back, rather than updating the fields one client at a time.
- `WebSocketHub.Hub.Register`: requires a client that was never closed. Each connection registers a freshly allocated client exactly once before it can be unregistered.
