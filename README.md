# Port killer: the text side, in Dafny

This project models the logic of `src/port-killer.tsx`, the plugin that lists
the processes listening on network ports and kills the ones on a chosen port.
Everything here works from text: the standard output of
`lsof -i -P -n | grep LISTEN || true` is taken as a string, and the kill
commands that would be run are returned rather than executed.

- `Wrappers.dfy`: `Option` (where `None` stands for JavaScript's `NaN`) and
  `Outcome` (a kill that succeeds or throws).
- `Seqs.dfy`: `Array.prototype.map` and `filter`, plus the "filter, then map"
  that a loop pushing into an array amounts to. Also the generic lemmas about
  order, membership and partition.
- `JsString.dfy`: the JavaScript built-ins the parser relies on:
  - `trim`;
  - `split("\n")`;
  - `split(/\s+/)`;
  - `startsWith`;
  - `parseInt(_, 10)`;
  - `${n}` for an integer.

  White space is the ECMAScript WhiteSpace and LineTerminator set. `split(/\s+/)` keeps
  JavaScript's empty first and last pieces when the text begins or ends with
  white space.
- `PortKiller.dfy`: the `OpenPort` record and the following, each with the
  lemmas about it:
  - `listOpenPorts` as a specification function (`Listing`) and as a method
    with the source's loop (`ListOpenPorts`, `ParseDataLines`);
  - the two end-anchored address patterns;
  - `killProcessByPort` as a method returning its outcome and the
    `kill -9` commands it issues;
  - the list filter the UI applies after a successful kill.

The filter on line 22 drops every trimmed line that *begins* with `COMMAND`,
not only the `lsof` header. A process whose name starts with `COMMAND` is
therefore never listed. The model follows the code, and
`ListingDropsCommandPrefixedProcess` states this behaviour.

## Model

| member | source | states |
|---|---|---|
| Seqs.Map | src/port-killer.tsx:21 | definition of `map`; its own contract gives the input's length and the function applied at every index |
| Seqs.Filter | src/port-killer.tsx:22 | definition of `filter`, never longer than its input; specified by `FilterMembers`, `FilterConcat` and `FilterPartition` |
| Seqs.FilterMembers | src/port-killer.tsx:22 | `filter` keeps exactly the elements that pass: every kept element is in the input and passes, every passing element is kept |
| Seqs.FilterConcat | src/port-killer.tsx:22 | `filter` keeps the input's order: filtering a concatenation concatenates the filtered parts |
| Seqs.FilterPartition | src/port-killer.tsx:56 | filtering by a test and by its negation splits the input: the two multisets add up to the input's, and so do the lengths |
| Seqs.FilterMap | src/port-killer.tsx:26-49 | definition of what a loop collects when it pushes at most one value per element, never more values than elements; specified by `FilterMapOrigin`, `FilterMapComplete` and `FilterMapConcat` |
| Seqs.FilterMapOrigin | src/port-killer.tsx:26-49 | every value a push loop collects comes from some input element that yields it |
| Seqs.FilterMapComplete | src/port-killer.tsx:26-49 | every input element that yields a value has that value collected |
| Seqs.FilterMapConcat | src/port-killer.tsx:26-49 | the loop keeps the input's order: the values of a concatenation are the concatenated values |
| JsString.TrimStart | src/port-killer.tsx:31 | the result is a suffix of the input, everything removed is white space, and the result does not begin with white space |
| JsString.TrimEnd | src/port-killer.tsx:21 | the result is a prefix of the input, everything removed is white space, and the result does not end with white space |
| JsString.Trim | src/port-killer.tsx:21 | `trim` leaves no white space at either end, gives the empty string exactly when the line is blank, and leaves a trimmed line unchanged |
| JsString.IsSpace | src/port-killer.tsx:21-27 | definition of the white space that `trim` removes and that `\s` matches; specified by `TrimStart`, `TrimEnd`, `Trim` and `SplitWs` |
| JsString.StartsWith | src/port-killer.tsx:22 | definition of `String.prototype.startsWith`; specified by `LineRecordSound` and `ListingDropsCommandPrefixedProcess` |
| JsString.SplitLines | src/port-killer.tsx:20 | `split("\n")` gives at least one piece, and no piece holds a line feed |
| JsString.JoinSplitLines | src/port-killer.tsx:20 | joining the pieces of `split("\n")` with line feeds restores the text |
| JsString.SplitJoinLines | src/port-killer.tsx:20 | lines without line feeds, joined by line feeds, split back into the same lines |
| JsString.SplitLinesConcat | src/port-killer.tsx:20 | a line feed between two texts separates their lines: the pieces are the first text's pieces followed by the second's |
| JsString.SplitWs | src/port-killer.tsx:27 | `split(/\s+/)` gives at least one piece and no piece holds white space; the first piece is empty exactly when the text is empty or begins with white space |
| JsString.SplitWsLast | src/port-killer.tsx:27 | the last piece is empty exactly when the text is empty or ends with white space |
| JsString.SplitWsInterior | src/port-killer.tsx:27 | every piece strictly between the first and the last is non-empty |
| JsString.SplitWsTrimmed | src/port-killer.tsx:27 | a non-empty trimmed line, as the loop receives, splits into non-empty fields only |
| JsString.SplitWsRun | src/port-killer.tsx:27 | a word followed by a run of white space of any length is a piece of its own, and the pieces of the following text come after it |
| JsString.SplitWsJoinRuns | src/port-killer.tsx:27 | non-empty words without white space, separated by runs of white space of any length as in column-padded output, split back into exactly those words |
| JsString.ToDecimal | src/port-killer.tsx:59 | the decimal rendering of a natural number is a non-empty digit string whose value is the number and which begins with `0` only when it is exactly `"0"` |
| JsString.DigitPrefix | src/port-killer.tsx:31 | the longest run of digits at the start: a digit prefix followed by the end or by a non-digit |
| JsString.DigitSuffix | src/port-killer.tsx:36 | the longest run of digits at the end: a digit suffix preceded by the start or by a non-digit |
| JsString.ParseInt | src/port-killer.tsx:31 | definition of `parseInt(s, 10)`: skip leading white space, take an optional sign and the longest run of digits, `NaN` (`None`) when that run is empty; specified by `ParseIntDigits`, `ParseIntNegative` and `ParseFormatInt` |
| JsString.FormatInt | src/port-killer.tsx:59 | definition of `${n}` for an integer: a minus sign for negatives, then the digits; specified by `ToDecimal` and `ParseFormatInt` |
| JsString.ParseIntDigits | src/port-killer.tsx:37 | `parseInt` of a digit run, followed by anything that is not a digit, is the run's decimal value |
| JsString.ParseIntNaN | src/port-killer.tsx:31 | `parseInt` gives `NaN` when the text, with no leading white space, begins neither with a digit nor with a sign followed by a digit |
| JsString.ParseIntNegative | src/port-killer.tsx:31 | `parseInt` of a minus sign, a digit run and anything that is not a digit is the run's value negated |
| JsString.ParseFormatInt | src/port-killer.tsx:63 | rendering an integer with `${}` and parsing it back with `parseInt` gives the integer, whatever non-digit text follows |
| PortKiller.OpenPort | src/port-killer.tsx:8-15 | definition of the `OpenPort` record, with `NaN` as `None` for the pid; specified by `ParseLineSound` and `LineRecordSound` |
| PortKiller.ColonDigitsAtEnd | src/port-killer.tsx:36 | a match of `/:(\d+)$/` captures a non-empty digit run that ends the address right after a colon |
| PortKiller.ColonDigitsParenAtEnd | src/port-killer.tsx:36 | a match of `/:(\d+)\)$/` captures a non-empty digit run that follows a colon and precedes a final `)` |
| PortKiller.PortDigits | src/port-killer.tsx:35-36 | a group found by either pattern (parenthesised form first) is a digit run that the address names as its port |
| PortKiller.PortDigitsComplete | src/port-killer.tsx:35-36 | whenever the address ends in `:digits` or `:digits)`, the patterns find exactly that digit run |
| PortKiller.ParseLine | src/port-killer.tsx:27-47 | definition of the loop body for one kept line; specified by `ParseLineSound` and `ParseLineComplete` |
| PortKiller.ParseLineSound | src/port-killer.tsx:27-47 | a record from a line means the line has at least nine fields; the record holds fields 7, 1 (parsed), 0, 2 and 8 unchanged, and a non-negative port equal to the value of the digits that field 8 names |
| PortKiller.ParseLineComplete | src/port-killer.tsx:27-47 | a line with at least nine fields whose field 8 names a port always yields its record, whether or not field 1 parses as a pid |
| PortKiller.IsDataLine | src/port-killer.tsx:22 | definition of the callback `(l) => l && !l.startsWith("COMMAND")`; specified by `LineRecordSound` and `ListingDropsCommandPrefixedProcess` |
| PortKiller.DataLines | src/port-killer.tsx:19-22 | definition of the `split`/`trim`/`filter` pipeline; specified by `ListingByLine` and `LineRecordSound` |
| PortKiller.Listing | src/port-killer.tsx:17-52 | definition of the array `listOpenPorts` returns; specified by `ListOpenPorts`, `ListingOrigin`, `ListingComplete`, `ListingConcat` and `ListingWellFormedLine` |
| PortKiller.ListOpenPorts | src/port-killer.tsx:17-52 | `listOpenPorts` on captured output returns exactly the specified listing |
| PortKiller.ParseDataLines | src/port-killer.tsx:24-51 | the `for … of` loop pushes, in order, the record of every kept line that yields one and nothing else |
| PortKiller.ListingByLine | src/port-killer.tsx:19-49 | the listing is the records of the output's lines, taken one line at a time |
| PortKiller.LineRecord | src/port-killer.tsx:19-47 | definition of the record one raw output line contributes; specified by `LineRecordSound` and `ListingByLine` |
| PortKiller.LineRecordSound | src/port-killer.tsx:19-47 | a line yields a record only if it is not blank, does not start with `COMMAND` after trimming, and has at least nine fields; the record's fields are those columns and its port is the non-negative value field 8 names |
| PortKiller.ListingOrigin | src/port-killer.tsx:19-49 | every listed record comes from one line of the output |
| PortKiller.ListingComplete | src/port-killer.tsx:26-49 | every line that yields a record has it listed |
| PortKiller.ListingLength | src/port-killer.tsx:19-49 | for every output, each line yields at most one record, so the listing is never longer than the output has lines |
| PortKiller.ListingConcat | src/port-killer.tsx:26-49 | records keep the order of their lines: two parts of the output joined by a line feed list the first part's records, then the second's |
| PortKiller.ListingOneLine | src/port-killer.tsx:26-49 | a single line lists at most its own record |
| PortKiller.ListingEmpty | src/port-killer.tsx:18-22 | empty output, which is also what the shell command prints when `lsof` fails, lists nothing |
| PortKiller.ListingWellFormedLine | src/port-killer.tsx:19-47 | any single line that survives the filter, splits into at least nine fields and has a field 8 naming a port lists exactly the record of those fields, whatever field 1 holds |
| PortKiller.ListingPaddedLine | src/port-killer.tsx:19-47 | a column-padded line (at least nine fields separated by runs of blanks of any length, a first field not beginning `COMMAND`, a field 8 naming a port) lists exactly the record of its fields |
| PortKiller.ListingDropsCommandPrefixedProcess | src/port-killer.tsx:22 | a padded line whose first field merely begins with `COMMAND` lists nothing, like the header |
| PortKiller.ListingNodeExample | src/port-killer.tsx:17-52 | the column-padded line of a `node` process on `127.0.0.1:8080` with pid 1234 lists one TCP record on port 8080 with that pid and user |
| PortKiller.ListingHeaderOnly | src/port-killer.tsx:22 | the column-padded `lsof` header line on its own lists nothing |
| PortKiller.Targets | src/port-killer.tsx:56 | definition of `ports.filter((p) => p.port === port)`; specified by `TargetsMembers`, `TargetsNone`, `TargetsConcat` and `TargetsAllOnPort` |
| PortKiller.KillCommand | src/port-killer.tsx:63 | definition of `kill -9 ${target.pid}`, with `NaN` for a pid that did not parse; specified by `KillCommandNamesPid` |
| PortKiller.KillError | src/port-killer.tsx:59 | definition of the `Error` thrown when nothing is on the port, carrying that port; specified by `KillProcessByPort` and `MessageNamesPort` |
| PortKiller.Message | src/port-killer.tsx:59 | definition of the message `No process found on port ${port}`; specified by `MessageNamesPort` |
| PortKiller.KillProcessByPort | src/port-killer.tsx:54-65 | fails with `NoProcessFound(port)` and issues no kill exactly when no listed record is on the port; otherwise issues one `kill -9` per record on the port, in listing order, each naming that record's pid |
| PortKiller.KillEach | src/port-killer.tsx:62-64 | one command per target, in order, the `i`-th naming the `i`-th target's pid, whatever each kill reports |
| PortKiller.TargetsMembers | src/port-killer.tsx:56 | the targets are exactly the listed records whose port equals the argument |
| PortKiller.TargetsNone | src/port-killer.tsx:56-60 | there are no targets if and only if no listed record is on the port |
| PortKiller.TargetsConcat | src/port-killer.tsx:56 | targets keep the listing's order |
| PortKiller.TargetsAllOnPort | src/port-killer.tsx:56 | when every record is on the port, all of them are targets, duplicates included |
| PortKiller.KillCommandNamesPid | src/port-killer.tsx:63 | what follows `kill -9 ` parses back to the target's pid, and to `NaN` when the pid did not parse |
| PortKiller.MessageNamesPort | src/port-killer.tsx:59 | the error message ends with the port it was asked about, which parses back to that port |
| PortKiller.RemovePort | src/port-killer.tsx:92-94 | definition of `prev.filter((p) => p.port !== port.port)`; specified by `RemovePortMembers`, `RemovePortConcat` and `TargetsAndRemovePortPartition` |
| PortKiller.RemovePortMembers | src/port-killer.tsx:92-94 | the optimistic update keeps exactly the displayed records not on the killed port, so none is left on it |
| PortKiller.RemovePortConcat | src/port-killer.tsx:92-94 | the optimistic update keeps the displayed order |
| PortKiller.TargetsAndRemovePortPartition | src/port-killer.tsx:92-94 | the kill's targets and the records the update keeps split the list between them, counting duplicates |

## Left out

- Running `lsof` and `grep` through `child_process.exec`, and the shell's `|| true` (line 18). The captured standard output is a parameter. `grep LISTEN` is part of that command, so lines without `LISTEN` are parsed like any other.
- PortKiller.ListOpenPorts and PortKiller.KillProcessByPort: `exec` can still reject despite `|| true`, for example when the output exceeds its default `maxBuffer` of 1 MiB. Then `listOpenPorts` throws, and so does `killProcessByPort`. The model always receives a complete output and has no such error path.
- Delivering `kill -9` (line 63). `KillProcessByPort` returns the commands it would run. Whether each one succeeded is the parameter `signalDelivered`, which the model reads and ignores, as `.catch(() => null)` does.
- `async`/`await` and promise sequencing. The calls run one after another and nothing else runs between them.
- The React and Vicinae UI (lines 67-112), except the filter on lines 92-94. That means the state hooks, the item keys and titles, the toasts, and the re-listing after a kill (line 98).
- JsString.ParseInt: the model gives the exact value of any digit run. JavaScript turns digit runs beyond 2^53 into imprecise floating-point numbers, and runs of more than about 309 digits into `Infinity`. The model reproduces neither. Such a line is still listed in JavaScript, because `isNaN(Infinity)` is false.
- PortKiller.KillProcessByPort: the `port` argument is an integer. The source accepts any JavaScript number, but a fractional or `NaN` argument equals no listed port, so it always takes the error path.
- JsString.FormatInt: the model writes every integer in plain decimal digits. JavaScript writes numbers of magnitude 1e21 and above in exponent notation (`1e+21`), so the two differ for a pid parsed from a token of 22 or more digits.
- PortKiller.KillCommand: for such a pid the command names the exponent form in JavaScript. The round trip of `KillCommandNamesPid` therefore holds in the model only.
- JavaScript's `-0` (`parseInt("-0")`) is the integer 0 here. That changes nothing, because `${-0}` renders as `0`.
- The JavaScript regular-expression engine. The two end-anchored patterns are written out as functions on strings.
