# nanolog's Microlog, modelled in Dafny

This project models the logger in `main.go` of the Go package nanolog and
proves properties about it. A `Microlog` holds three things:

- a user prefix;
- an integer severity threshold (`filter`);
- a flag that says whether standard output is a terminal.

`New` probes standard output, checks the threshold and settles the default.
`Filter` sets the threshold by number. `NamedFilter` sets it by name.

The emission methods work as follows:

- `Error`, `Warn`, `Info` and `Debug` each print one line when the threshold
  admits their level.
- `Fatal` always composes its line and panics with it.
- Interactive lines are coloured with ANSI escape sequences, except Info,
  which is uncoloured but still ends with the reset ESC "[m".
- Lines for a service manager instead carry syslog priorities `<N>`, except
  Fatal, which carries none and relies on the level the service manager
  assigns to the unit's output. In that mode:
  - a message longer than 47 KiB is cut to its first 47 KiB and marked
    " (truncated)";
  - every newline in the message is then followed by the priority again, so
    each physical line keeps its priority (Fatal's rewriting inserts nothing).

Files:

- `gostrings.dfy` (module `GoStrings`).
  - Go strings as byte sequences.
  - `strings.ReplaceAll` with the pattern "\n".
  - `strings.Split` and `strings.Join` on "\n": the properties about lines are
    stated with these.
- `nanolog.dfy` (module `Nanolog`).
  - The constants and the level-name table.
  - The line composition (`Compose`, `Truncate`).
  - The construction rules (`Setup`, `SetupAsWritten`).
  - The class `Microlog`, with its fields and methods.
- `properties.dfy` (module `NanologProperties`): lemmas about filtering, line
  shapes, truncation, level names and construction.

The emission methods change no state. Each one returns the line it would
print, or the payload `Fatal` would panic with. The message is taken as the
already formatted result of `fmt.Sprintf`. The terminal probe
`unix.IoctlGetTermios` becomes an input of type `Probe`, with three outcomes:

- the call succeeds;
- it fails with ENOTTY;
- it fails with some other errno.

Errors are values of type `LogError` instead of Go `error` strings.

Where a description of the logger and its code could be read differently,
the model records what the code does:

- the code as written never stores a non-zero explicit filter. The model
  carries both versions: `SetupAsWritten` is the code as written, while
  `Setup` and `Microlog.New` keep the explicit filter (see Findings);
- truncation comes before newline rewriting, so newlines after the cut are
  dropped, and the inserted prefixes do not count toward the 47 KiB;
- newlines are rewritten only for non-interactive output;
- only newlines of the message are followed by the priority. A newline inside
  the user prefix starts a physical line without a priority, so the line
  structure lemmas assume a user prefix without newlines;
- `New` accepts negative filters, and `Filter` accepts any integer.

`userPrefix` and `interactive` are set only at construction: `Filter` and
`NamedFilter` may change only `filter`, and the emission methods change
nothing.

## Model

| member | source | states |
|---|---|---|
| GoStrings.ReplaceAllNewline | main.go:131 | `strings.ReplaceAll(s, "\n", repl)`, scanning left to right; its contract says only that empty input gives empty output, and what the rewriting does is stated by the lemmas in the rows below |
| GoStrings.ReplaceAllNewlineLength | main.go:131 | replacing every "\n" by `repl` grows the string by \|repl\| - 1 bytes per newline |
| GoStrings.PrefixNewlinesLength | main.go:131 | replacing "\n" by "\n"+p adds exactly \|p\| bytes per newline |
| GoStrings.ReplaceAllNewlineNone | main.go:131 | a string without newlines is not changed by the replacement |
| GoStrings.ReplaceAllNewlineConcat | main.go:131 | the replacement works byte by byte, so it distributes over concatenation |
| GoStrings.ReplaceAllNewlineOne | main.go:131 | in a string with one newline, exactly that newline becomes `repl` |
| GoStrings.ReplaceAllNewlineIdentity | main.go:108 | replacing "\n" by "\n" + the empty Fatal prefix leaves the message as it is |
| GoStrings.SplitReplaceAllNewline | main.go:131 | after the replacement by "\n"+p, the line count is unchanged, the first line is unchanged, and every later line is p followed by the original line |
| GoStrings.ReplaceAllNewlineAsJoin | main.go:131 | the rewritten message equals the original lines joined again, with p in front of every line but the first |
| Nanolog.InPrefix | main.go:31-36 | the interactive colour prefix: empty exactly for Info, otherwise an escape sequence without a newline |
| Nanolog.UnPrefix | main.go:39-44 | the syslog prefix: empty exactly for Fatal, otherwise three bytes "<N>"; never a newline |
| Nanolog.Enabled | main.go:117-119 | the filter check `filter < LevelX` negated: Fatal always passes, below 4 only Fatal passes, and from 7 on every level passes |
| Nanolog.Truncate | main.go:127-129 | the result is at most 47*1024 bytes plus the marker, and a message within 47*1024 bytes is unchanged |
| Nanolog.Compose | main.go:113 | every composed line, interactive or not, ends in "\n" |
| Nanolog.IndexOf | main.go:85-92 | finds `name` exactly when it is in the table, and returns the position of its first occurrence |
| Nanolog.SetupAsWritten | main.go:52-78 | the code as written: a probe error comes first, then a filter above 7 gives InvalidLevel(filter); on success, interactive is probe == Terminal, filter 0 gives 6 (terminal) or 7, and any other filter leaves the threshold 0 |
| Nanolog.Setup | main.go:52-78 | the corrected construction: the same errors in the same order; filter 0 gives 6 (terminal) or 7, and any other filter up to 7 is kept |
| Nanolog.Microlog.constructor | main.go:56 | the zero-valued logger with the given user prefix |
| Nanolog.Microlog.New | main.go:52-78 | fails exactly when Setup fails, with the same error; on success, a fresh logger with the user prefix and the threshold and flag Setup gives |
| Nanolog.Microlog.Filter | main.go:80-82 | the threshold becomes the argument, unchecked, and nothing else changes |
| Nanolog.Microlog.NamedFilter | main.go:84-95 | succeeds exactly for a name in the table and sets the threshold to its index + 3; otherwise it returns UnknownLevel(name) and keeps the threshold; it never changes the prefix or the flag |
| Nanolog.Microlog.Fatal | main.go:97-114 | whatever the threshold, the payload is the composed Fatal line |
| Nanolog.Microlog.Error | main.go:116-137 | prints exactly when filter >= 4, and then prints the composed Error line |
| Nanolog.Microlog.Warn | main.go:139-160 | prints exactly when filter >= 5, and then prints the composed Warn line |
| Nanolog.Microlog.Info | main.go:162-183 | prints exactly when filter >= 6, and then prints the composed Info line |
| Nanolog.Microlog.Debug | main.go:185-206 | prints exactly when filter >= 7, and then prints the composed Debug line |
| NanologProperties.EnabledMonotone | main.go:117-119 | raising the threshold never silences a level |
| NanologProperties.EnabledBySeverity | main.go:140-142 | a threshold that admits a level admits every more severe level, and Fatal always passes |
| NanologProperties.EnabledExtremes | main.go:186-188 | below 4 only Fatal passes, and from 7 on every level passes |
| NanologProperties.InteractiveLine | main.go:121-136 | an interactive line is colour prefix + user prefix + message + reset + "\n": no truncation, no rewriting, and its exact length |
| NanologProperties.InteractiveInfoLine | main.go:168-182 | Info is not coloured, but its interactive line still ends in ESC "[m" "\n" |
| NanologProperties.TruncateLong | main.go:127-129 | a message longer than 47*1024 bytes keeps its first 47*1024 bytes, followed by the marker |
| NanologProperties.MarkerHasNoNewline | main.go:128 | the " (truncated)" marker adds no line |
| NanologProperties.ComposeNonInteractive | main.go:125-136 | a non-interactive line is syslog prefix + user prefix + rewritten truncated message + "\n", with the suffix empty |
| NanologProperties.NonInteractiveLines | main.go:125-136 | for a user prefix without newlines, the output's lines are: first, prefix + user prefix + the first message line; then every other message line with the prefix alone; then a final empty piece |
| NanologProperties.NonInteractiveLineCount | main.go:131 | for a user prefix without newlines, the output has one newline per newline of the truncated message, plus the terminating one |
| NanologProperties.NonInteractiveEveryLinePrefixed | main.go:131-136 | for a user prefix without newlines, every output line starts with the syslog prefix, the first one followed by the user prefix, no line holds a newline, and the output ends with a newline |
| NanologProperties.NonInteractiveSingleLine | main.go:125-136 | a short message without newlines is only decorated |
| NanologProperties.NonInteractiveFatalLine | main.go:102-113 | a non-interactive Fatal line is user prefix + truncated message + "\n", with newlines left as they are |
| NanologProperties.NonInteractiveTruncation | main.go:127-131 | truncation happens before rewriting: only newlines before the cut remain, and the output length is exact |
| NanologProperties.NonInteractiveTwoLines | main.go:131-136 | a two-line message gets the syslog prefix on both lines and the user prefix on the first only ("line1\nline2" at Error becomes "<3>line1\n<3>line2\n") |
| NanologProperties.LevelsDistinct | main.go:48 | the five level names are pairwise different |
| NanologProperties.NamedFilterTable | main.go:48 | the table is crit, error, warn, info, debug, and each name is found at its own index, so the thresholds are 3 to 7 |
| NanologProperties.NamedFilterRange | main.go:90 | every accepted name gives a threshold between 3 and 7 |
| NanologProperties.NamedFilterCaseSensitive | main.go:86 | names are compared byte for byte: "WARN", "Warn" and "warning" are not accepted |
| NanologProperties.NamedWarnThreshold | main.go:90 | after "warn" the logger prints warnings but not infos |
| NanologProperties.SetupProbeErrorFirst | main.go:58-62 | a probe failure other than ENOTTY is returned whatever the filter |
| NanologProperties.SetupRejectsAboveDebug | main.go:64-66 | with a working probe, every filter above 7 is rejected with that value |
| NanologProperties.SetupDefaultThreshold | main.go:68-75 | filter 0 gives Info (6) on a terminal and Debug (7) otherwise |
| NanologProperties.SetupWarnTest | main.go:52-78 | with the corrected construction, New(…, LevelWarn) prints warnings and hides info and debug |
| NanologProperties.SetupAsWrittenIgnoresFilter | main.go:68-77 | as written, an accepted non-zero filter, negative ones included, leaves the threshold 0, so only Fatal passes |
| NanologProperties.SetupAsWrittenWarnTestSilent | main.go:68-77 | as written, the logger built as New("[prefix] ", LevelWarn) does not print warnings |
| NanologProperties.SetupAsWrittenAgrees | main.go:52-78 | the written and corrected constructions differ exactly on an accepted non-zero filter |

## Left out

- Nanolog.Microlog.New: keeps an explicit filter, which main.go:68-77 drops. The code as written is `Nanolog.SetupAsWritten` (see Findings).
- NanologProperties.NonInteractiveLines, NanologProperties.NonInteractiveLineCount, NanologProperties.NonInteractiveEveryLinePrefixed: they require a user prefix without newlines. main.go:131 rewrites only the newlines of the message, so a newline inside the user prefix starts a physical line that carries no priority.
- default.go: the package-level facade delegates to a global `Default` logger. It adds no logic, so it is not part of this model.
- `fmt.Sprintf`: formatting is a library call, so the message is taken as already formatted.
- `fmt.Print` and `panic`: output and control flow. Each method returns the line instead.
- The `unix.IoctlGetTermios` probe: a system call. Its three outcomes are an input (`Probe`).
- The error texts ("invalid log level %d", "unknown level %s"): structured `LogError` values stand in for them.
- `strings.ReplaceAll`: modelled only for the pattern "\n", which is the only pattern the logger uses.
- Go's `int` width: the model uses unbounded integers. The logger does no arithmetic that could overflow; it only compares and adds 3 to an index below 5.
- Concurrency: the logger has no locking, and the model is sequential.

## Findings

| source | as written | input that shows it | evidently intended | confidence | as-written member | corrected member |
|---|---|---|---|---|---|---|
| main.go:68-77 | the threshold is assigned only when the filter is 0, so any other accepted filter leaves the zero value 0, and only Fatal is printed | New("[prefix] ", LevelWarn) with a working probe: Warn prints nothing (main_test.go:13-20 expects "should see this warning") | an explicit filter of 7 or less becomes the threshold | high; not executed | NanologProperties.SetupAsWrittenWarnTestSilent | NanologProperties.SetupWarnTest |
