# smallsh front end in Dafny

This project models the command-line front end of smallsh, a small
interactive shell written in C (`main.c`). It covers the following:

- **Tokenizer.** A line is split the way repeated `strtok(…, " ")` calls
  split it. `Tokenizer.Tokens` is a pure function, and the parser keeps an
  index into its result in place of the `strtok` cursor.
- **`parseCommand`.**
  - `Parser.Scan` is the token loop as a function, with one branch per
    `strcmp` case of the code.
  - `Parser.ParseLine` is the whole parse, including the NULL result and
    the `$$` pass.
  - `Parser.ParseCommand`, `Parser.ScanTokens` and `Parser.ScanRound` are
    the imperative parser. It builds a `Command.CommandStruct` and is
    proved to produce `ParseLine`.
  - An independent "clause" reading of the tokens (`Parser.Group`) states
    what the loop computes without following its control flow. Examples
    of clauses: a word, `< f`, `> f`, a final `&`, `&` with its next token.
- **`struct command` and `addArgument`.** `Command.CommandStruct` is a class
  over an `array<Option<string>>`, with `None` for NULL. Its invariant
  `Valid` keeps every slot after the arguments NULL, so the array handed
  to `execvp` is always NULL-terminated. Its `AddArgument` reallocates by
  doubling, as the code does.
- **`expansionVariablePIDReplace`.** `Expansion.ExpandArguments` models the
  in-place loop, which replaces the leftmost `$$` and then re-examines
  the same entry (`i--`). It is proved equal to a one-pass left-to-right
  scanner, `Expansion.Expand`.
- **The main loop.** `Shell.Dispatch` is one turn of the loop over
  `run_program`, `exit_status` and `foreground_only`. It covers the
  built-ins `exit`, `cd` and `status`, the value `executeCommand` returns,
  and the forced foreground of foreground-only mode. `Shell.Session`
  covers a whole run.
  - `Shell.Interpreter` is the same machine as a class with mutable
    fields: `RunLine`, `MainLoop`, the SIGTSTP handler
    `ToggleForegroundOnly`, and `ChangeDirectoryTarget`. Its methods are
    proved against those functions.

Inputs from the environment that the model cannot see are parameters:
- the process id, as decimal text;
- the value of `HOME`, as an `Option`;
- what `waitpid` reports for a foreground child;
- how many SIGTSTP signals arrive before each line is dispatched.

The three inputs that are undefined behaviour in C become explicit parse
errors (`Parser.ParseError`):
- a line of spaces only, where `strtok` returns NULL for the program name;
- a trailing `<` with no file after it (`strlen(NULL)`);
- a trailing `>` with no file after it.

In four places the code behaves differently from what one would expect
of a shell like this, and the model follows the code:
- **`status`.** One would expect `status` to print "exit value 2" after a
  command exits with code 2, and "terminated by signal 9" after one is
  killed by signal 9. The code prints "exit value N" only when N is 0 or
  1, and "terminated by signal N" for every other status. A child killed
  by a signal is recorded as -1, not as the signal number, so the code
  prints "terminated by signal -1".
- **Background launches.** One would expect them to leave the last status
  alone. The code sets `exit_status` to 0.
- **Separators.** One would expect any whitespace to separate tokens. The
  code splits on the space character only, so a tab is part of a token.
- **Blank lines.** One would expect a line of spaces to be ignored like an
  empty line. In the code it is undefined behaviour. See the parse errors
  above.

## Model

| member | source | states |
|---|---|---|
| Format.Decimal | main.c:504-506 | the pid text is a non-empty string of decimal digits with no leading zero unless the number is 0 |
| Format.DecimalRoundTrip | main.c:506 | reading the digits back gives the number: `%d` loses nothing |
| Format.IntToStringInjective | main.c:143-146 | two different statuses are never printed with the same digits |
| Tokenizer.WordLength | main.c:413 | the first token ends at the first space or at the end of the line |
| Tokenizer.TokensAreTokens | main.c:413-459 | every token `strtok` returns is non-empty and contains no space |
| Tokenizer.NoTokensIffAllSpaces | main.c:413 | the first `strtok` returns NULL exactly when the line holds only spaces |
| Tokenizer.FirstToken | main.c:413-417 | on a line not starting with a space, the program name is the run of non-space characters at its start |
| Tokenizer.LeadingSpacesIgnored | main.c:413 | spaces before the line change no token |
| Tokenizer.WordLengthOfToken | main.c:425-459 | a token followed by a space or by the end of the line is taken whole |
| Tokenizer.WordLengthBeforeSpace | main.c:425-459 | a word ends at the first space after it, whatever follows |
| Tokenizer.SpaceSeparates | main.c:413-459 | a space separates: the tokens of `a + " " + b` are those of `a` followed by those of `b`, so a run of spaces between words acts as one |
| Tokenizer.TrailingSpacesIgnored | main.c:425-459 | spaces at the end of the line produce no token |
| Tokenizer.TokensOfJoin | main.c:413-459 | tokens joined by single spaces are split back into the same tokens |
| Expansion.FindMarker | main.c:500-512 | `strstr` finds the leftmost `$$`, or none when there is none |
| Expansion.ExpandAll | main.c:498 | every argument is expanded and the count is unchanged |
| Expansion.DollarCountConcat | main.c:515-518 | the number of `$` characters adds up over a concatenation |
| Expansion.NoDollarCount | main.c:506 | a string without `$` has a count of zero |
| Expansion.SpliceLowersDollarCount | main.c:515-524 | one rewrite removes exactly two `$`, so the `i--` rescan ends |
| Expansion.ExpandPrefix | main.c:512-518 | a prefix holding no marker is kept verbatim by the expansion |
| Expansion.NoMarkerFixed | main.c:500-502 | an argument without `$$` is left as it is |
| Expansion.ExpandAtLeftmostMarker | main.c:512-518 | the scan of an argument keeps the text before the leftmost `$$` and puts the pid in place of the marker |
| Expansion.ExpandOfSplice | main.c:515-518 | after the splice, the rescan keeps the marker-free prefix and the `$`-free pid text as they are |
| Expansion.SplicePreservesExpand | main.c:512-524 | replacing the leftmost `$$` and rescanning from the start gives the same final text as the one-pass scan, so `"$$$"` becomes pid followed by `$` |
| Expansion.NoMarkerConcat | main.c:517-518 | joining two strings without `$$` creates none, unless a `$` meets a `$` |
| Expansion.ExpandLeavesNoMarker | main.c:498-526 | after expansion no `$$` is left in the argument |
| Expansion.DecimalHasNoDollar | main.c:506 | the pid text contains no `$`, so it cannot create a new marker |
| Expansion.ExpandArguments | main.c:496-527 | the loop rewrites each of the first `numArguments` entries to its expansion and no other slot |
| Command.CommandStruct.constructor | main.c:398-422 | a capacity-2 array, NULL after the first argument, the first token as both command and `argumentsArray[0]`, no files, foreground |
| Command.CommandStruct.AddArgument | main.c:468-494 | count +1, the argument appended after unchanged earlier entries, capacity doubled exactly when the new count reaches it, NULL-terminated afterwards, other fields unchanged |
| Command.CommandStruct.AddEmbeddedAmpersand | main.c:440-452 | an embedded `&` clears the background flag and appends `"&"` and the next token verbatim |
| Command.Regrow | main.c:473-486 | the new array has the new capacity, the old entries copied and NULL after the slot about to be written |
| Parser.ScanHead | main.c:428-459 | one round of the token loop handles exactly one clause |
| Parser.GroupFlatten | main.c:428-460 | grouping into clauses drops no token and adds none |
| Parser.GroupWellFormed | main.c:440-455 | operators never become words, and a background mark can only come last |
| Parser.FlattenGroup | main.c:428-460 | every well-formed clause list is what its own spelling groups into, the reverse round trip |
| Parser.LastInputCons | main.c:430-434 | the last input redirection of a list is found by a scan from the front |
| Parser.LastOutputCons | main.c:435-439 | the same for output redirection |
| Parser.LaterInputWins | main.c:430-434 | a later `< f` overrides every earlier one |
| Parser.LaterOutputWins | main.c:435-439 | a later `> f` overrides every earlier one |
| Parser.ScanByClauses | main.c:428-460 | the token loop fails exactly when grouping fails, with the same error; otherwise its result is the clause summary: arguments are the words and literal ampersands, the files are the last redirections, background iff the last clause is the final `&` |
| Parser.SummaryCons | main.c:428-460 | a clause other than the final `&` is folded into the summary in order |
| Parser.NoCommandIffEmptyOrComment | main.c:393-395 | NULL is returned exactly for an empty line or one starting with `#` |
| Parser.BlankLineIsMalformed | main.c:413-417 | a line of spaces has no program name |
| Parser.ParsedCommandFields | main.c:412-463 | command is the first token, unexpanded; the arguments are the expanded first token and contributed words; at least one argument; the files and background flag are as the clauses say |
| Parser.BackgroundNeedsTrailingAmpersand | main.c:440-448 | background is set only when the last token is `&` |
| Parser.FlattenLast | main.c:445-447 | a clause list ending in the final `&` is spelled with `&` last |
| Parser.ScanAt | main.c:428-459 | one clause at the cursor position |
| Parser.ParseCommand | main.c:391-466 | NULL exactly for empty or comment lines; otherwise a fresh, valid, NULL-terminated command whose value is `ParseLine`, or the parse error |
| Parser.ScanTokens | main.c:424-460 | the loop over the remaining tokens ends with the command `Scan` describes or with its error |
| Parser.ScanRound | main.c:429-459 | one round of the loop: applies the clause at the cursor, stops at a final `&`, or fails on a missing file |
| Shell.ExecuteResult | main.c:183-259 | the status is 0 for a background launch, the exit code for a normal exit, and -1 exactly for a foreground child that did not exit normally |
| Shell.StatusMessageForm | main.c:142-148 | "exit value N" iff N is 0 or 1, otherwise "terminated by signal N", N being the status |
| Shell.StatusMessageInjective | main.c:142-148 | different statuses give different messages |
| Shell.CdTarget | main.c:165-171 | HOME for a bare `cd`, otherwise the first argument |
| Shell.IgnoredLinesChangeNothing | main.c:129-130 | an empty or comment line leaves state and output alone |
| Shell.ForegroundOnlyNeverBackground | main.c:125-127 | in foreground-only mode nothing is launched in the background |
| Shell.ExitStopsTheLoop | main.c:116-134 | the loop continues exactly until `exit` |
| Shell.ExitStatusBookkeeping | main.c:133-152 | built-ins and lines that yield no command keep `exit_status`; other commands set it to 0 in the background, otherwise to the exit code, or to -1; no turn changes the mode |
| Shell.StatusReportsLastForeground | main.c:140-151 | `status` after a foreground command reports how that command ended |
| Shell.ForceForegroundAsWritten | main.c:123-130 | the override as written fails (NULL write) exactly in foreground-only mode on a line that yields NULL |
| Shell.EmptyLineDereferencesNull | main.c:125-130 | an empty or comment line in foreground-only mode reaches the NULL write |
| Shell.AfterStopsParity | main.c:71-79 | an even number of toggles restores the mode and an odd number flips it |
| Shell.SessionStopsAtFirstExit | main.c:116-158 | the loop handles every line up to and including the first `exit` and none after; it has stopped iff it met one |
| Shell.Interpreter.constructor | main.c:88-91 | the loop starts running, with status 0 and the mode off |
| Shell.Interpreter.ToggleForegroundOnly | main.c:71-79 | flips `foreground_only` and changes nothing else |
| Shell.Interpreter.DeliverStops | main.c:68-79 | `n` handler runs leave the state `AfterStops` describes |
| Shell.Interpreter.ChangeDirectoryTarget | main.c:165-171 | reads the target off the argument array as `CdTarget` says |
| Shell.Interpreter.RunLine | main.c:120-156 | one turn of the loop updates the state and acts as `Dispatch` says, on the line `ParseLine` parses |
| Shell.Interpreter.MainLoop | main.c:116-158 | running the loop over a sequence of lines gives the state and actions of `Session` |
| Scenarios.TokenizingExample | main.c:413-459 | `"ls  -l &"` has the three tokens `ls`, `-l`, `&` |
| Scenarios.SpacedTail | main.c:425-459 | leading spaces are skipped before a token |
| Scenarios.AmpersandExamples | main.c:440-455 | `ls -l &` is a background `ls -l`; `ls & > x` has the arguments `ls & > x`, in the foreground |
| Scenarios.RedirectionExample | main.c:430-439 | `sort < in.txt > out.txt` has only `sort` as argument, with both files set |
| Scenarios.ExpansionExamples | main.c:496-527 | `$$$` with pid 42 gives `42$`, and `a$$b$$` with pid 1234 gives `a1234b1234` |
| Scenarios.StatusAfterExitCodeTwo | main.c:142-151 | after a foreground exit with code 2, `status` reports "terminated by signal 2" |

## Left out

- `fork`, `execvp`, `waitpid`, `dup2`, `fopen` and the `/dev/null` redirection in the child (main.c:188-256, 296-376). These are process and file-descriptor plumbing. The parent's result enters as a `Shell.WaitStatus` parameter, and launching becomes the actions `LaunchForeground` and `LaunchBackground`.
- The dead branch for `numArguments == 0` in `executeBackgroundCommand`, for the same reason. The model proves that a parsed command always has at least one argument.
- `sigchildHandler` and every `sigaction` installation (main.c:95-114, 263-293, 311-319). These are asynchronous reaping and signal dispositions.
- All `printf`/`fflush` output, including the prompts and the handlers' notices. The `status` and `cd` built-ins are modelled by the message or target they produce, as an `Action`.
- `getCommand` (main.c:380-389), which is terminal input. The model starts from the line with its newline already removed. The 2048-byte buffer limit is not modelled.
- The effects of `chdir` and `getenv("HOME")` (main.c:167, 174). Only the choice of target is modelled.
- `getpid` and `sprintf` (main.c:504-506). The pid is a parameter, and its text is `Format.Decimal`.
- `freeCommandStruct`, `malloc`/`free` and the size arithmetic of the allocations (main.c:398-399, 416-420, 433, 438, 473, 481, 490, 509, 520, 529-547). Memory is managed by Dafny. Strings are values, so the copies made with `strcpy` are not modelled as separate buffers.
- The asynchronous delivery of SIGTSTP and the `volatile` atomicity of `foreground_only`. Signals are modelled as arriving between lines (`Shell.Turn.stops`), and each delivery is an ordinary sequential flip.
- The 32-bit `int` range of `numArguments`, `argumentCapacity`, `exit_status` and the pid. Counts and codes are unbounded integers, and `argumentCapacity *= 2` is not modelled as wrapping.

## Findings

| source | as written | input that shows it | evidently intended | confidence | as-written member | corrected member |
|---|---|---|---|---|---|---|
| main.c:123-130 | in foreground-only mode `commandStruct->isBackground` is written before the test for NULL, and `parseCommand` returns NULL for an empty or comment line | an empty line (or `# comment`) typed after SIGTSTP has switched foreground-only mode on | test for NULL first, and only then force the command to the foreground | high (not executed) | Shell.EmptyLineDereferencesNull | Shell.IgnoredLinesChangeNothing |
