# myshell execution core in Dafny

A model of the command-execution core of a small interactive shell (`pa1.c`).
The shell reads a line, records it in an in-memory history, tokenizes it and
hands the tokens to `run_command`. That function recognises `exit`, `cd`, a
two-stage pipeline joined by the separator token `Bar` (a lone vertical bar) or a plain command, which `exec_command` forks.
In the forked child, the built-ins `history` (list the store) and `! N`
(re-run history entry `N`) are handled before falling back to `execvp`.

Every operating-system call is an oracle. `Dispatch.Env` bundles them as
total functions:

- the value `exec_command` returns in the parent: -1 on fork failure, otherwise what `wait` returned. It is indexed by the launch's position within one dispatch (0 for the left or only stage, 1 for a pipeline's right stage), so the two stages of a pipeline fork and fail independently;
- whether `pipe()` succeeds;
- `getenv("HOME")` and `chdir`;
- the tokenizer `parse_command` and `atoi`;
- whether `execvp` finds a program.

The parent never sees a child's exit code, because `wait`'s return value is a
pid. So `Dispatch.RunCommand` describes the parent and `Dispatch.ChildRun`
describes the child, separately. A recall's re-dispatch runs inside the child,
so it is modelled as one resolution step plus the status of dispatching the
stored text once more, answered by a second `Env` of its own: the child's
fresh `__process_command` forks anew, so its launches, pipe and `chdir` are
independent of the parent's. Recall is not proved to terminate: the two guards do
not exclude a cycle, as `Recall.MutualRecallPassesGuards` shows with two
entries that recall each other past both guards, judged against the store as
it was forked. The self-recall guard is purely textual, so even one entry can
recall itself when it spells its own index differently from `"! %d\n"`, as
`Recall.RespelledSelfRecallPassesGuards` shows.

Files (one module each):

- `options.dfy`: `Option`, standing for a possibly-NULL pointer.
- `format.dfy`: the `%d` / `%2d` conversions, with their read-back lemmas.
- `tokens.dfy`: `find_pipe`, the pipeline split and the NULL-terminated argv arrays.
- `history.dfy`: the history list as a sequence, `append_history`, the `history` listing and `finalize`.
- `recall.dfy`: one step of `! N`, covering the index walk, the range guard and the self-recall guard.
- `dispatch.dfy`: `run_command`, `__process_command` and the child side of `exec_command`.

## Model

| member | source | states |
|---|---|---|
| Tokens.FindPipeFrom | pa1.c:141-146 | the scan from position i returns the first Bar at or after i, or -1 exactly when none of those tokens is Bar |
| Tokens.FindPipe | pa1.c:139-148 | result lies in [-1, n); -1 exactly when no token is Bar; otherwise that token is Bar and none before it is |
| Tokens.SplitAt | pa1.c:189-194 | left stage has idx tokens, left ++ [separator] ++ right rebuilds the tokens, the two lengths sum to n-1 |
| Tokens.NullTerminated | pa1.c:191-197 | the argv array has one more slot than the stage, holds the stage's tokens in order and NULL at the stage's own length |
| Tokens.ArgumentsOfNullTerminated | pa1.c:195-197 | reading an argv array up to its first NULL gives back exactly the stage's tokens |
| Tokens.PipeSplit | pa1.c:168-197 | cutting at the first separator: left is tokens[0..idx), right is tokens[idx+1..n), no separator in the left stage, lengths sum to n-1, each argv array carries exactly its stage |
| Dispatch.Classify | pa1.c:163-209 | branch order: exit iff tokens[0] is "exit"; cd iff it is "cd", even with a Bar present; the HOME target iff there is no argument or it is "~", else tokens[1]; a leading Bar is refused; a pipeline iff a Bar occurs and no earlier branch applies, with a non-empty separator-free left stage; plain launch otherwise |
| Dispatch.Normalise | pa1.c:212-215 | the result is 1 or negative; 1 exactly for non-negative input; negative input passes through unchanged |
| Dispatch.RunPipeline | pa1.c:183-205 | pipe() failure gives -1 and no launch; otherwise the left stage is launched piped first, the right stage is launched iff the left launch returned more than 1, and then the right launch result replaces the left one; the status is 1 or negative |
| Dispatch.RunCommand | pa1.c:163-216 | status 0 iff the first token is "exit", otherwise 1 or negative; exit, cd and a leading Bar launch nothing; cd calls chdir once on HOME or tokens[1]; a pipeline runs its stages cut at the first Bar, left tokens[..k] and right tokens[k+1..]; a plain command is launched once, unpiped |
| Dispatch.ProcessCommand | pa1.c:281-290 | a line with no tokens yields 1; the status is 0 exactly when the first token is "exit"; otherwise it is 1 or negative |
| Dispatch.ChildRun | pa1.c:61-119 | history lists the whole store and exits 1; "!" resolves its index and exits -1 unless both guards pass, else exits with the status of re-dispatching the stored text under the child's own oracle; anything else goes to execvp, exiting -1 only if the program cannot be run |
| Dispatch.ChildExitsZeroOnlyOnRecalledExit | pa1.c:61-119 | the child passes 0 to exit exactly when a recall replays a line whose first token is "exit"; every other value passed to exit is at most 1 (a waiting process sees it modulo 256) |
| Dispatch.ReplayIsItsOwnLaunch | pa1.c:106-123 | a replayed plain command is launched by the child's own fork: the child's exit code is that nested launch's outcome, even when the stored text is the parent's own "!" command |
| Dispatch.RecalledExitEndsOnlyTheChild | pa1.c:106-111 | a recalled "exit" makes the child exit with 0 while the parent's status for the "!" command is never 0, so the session goes on |
| Dispatch.TrailingBarSpawnsEmptyStage | pa1.c:176-205 | only a leading Bar is refused: any command whose only Bar is its last token creates the pipe, launches the tokens before it, and then launches an empty right stage once that launch returned more than 1 |
| Dispatch.RightStageFailsOnItsOwn | pa1.c:204-205 | with both stages the same command, the right launch can fail after the left one succeeded, and its negative result is the pipeline status |
| History.Append | pa1.c:225-235 | the line becomes the last entry, the size grows by one and every earlier entry keeps its index |
| History.AppendAllInOrder | pa1.c:225-235 | appending lines one at a time gives the old store followed by the lines in submission order |
| History.SubmittedLinesRecalledByIndex | pa1.c:225-235 | starting from an empty store, entry i is the i-th submitted line, for every i |
| History.IndexPrefix | pa1.c:65 | the "%2d: " column is exactly four characters for indices below 100 and otherwise exactly as long as the index's digits plus ": ", with no padding (the content is fixed by IndexPrefixReadBack); it ends in ": " and holds no newline |
| History.IndexPrefixReadBack | pa1.c:65 | after the column's leading blanks come exactly the digits of the index, which read back as the index |
| History.FormatEntry | pa1.c:65-73 | a listed line always ends in a newline; it is one character longer than index column plus stored text exactly when the text does not already end in a newline |
| History.FormatEntryLayout | pa1.c:65 | a listed line starts with the "%2d: " index column, followed by the stored text unchanged |
| History.OneTerminatorPerEntry | pa1.c:71-73 | an entry holding one input line is printed with exactly one newline |
| History.Listing | pa1.c:62-74 | one listed line per entry, in list order, line i formatted with index i |
| History.ListingLabelsDistinct | pa1.c:63-65 | distinct positions get distinct index labels |
| History.Finalize | pa1.c:262-276 | every entry is released, in list order and once each, and the list ends empty; an empty list releases nothing |
| Recall.SearchFrom | pa1.c:91-97 | the walk stops at the target when it is a position not yet passed, otherwise at the list size |
| Recall.Search | pa1.c:88-97 | the walk ends at N when 0 <= N < size, and at size otherwise, negative N included |
| Recall.RecallLine | pa1.c:101-102 | the self-recall text is "! ", then N printed with %d, then a newline |
| Recall.RecallLineInjective | pa1.c:100-102 | the "! %d\n" comparison text of N differs from that of every other index |
| Recall.Resolve | pa1.c:78-110 | one token: missing index; "index exceeded" exactly when N is outside [0, size-1); "cannot call itself" exactly when N is in range and entry N is "! N\n"; otherwise entry N is replayed |
| Recall.OwnEntryNeverRecalled | pa1.c:104-105 | after the "!" line is appended, neither its own index nor any index past it can be recalled |
| Recall.MutualRecallPassesGuards | pa1.c:104-109 | with "! 1\n" and "! 0\n" stored and "! 0" typed, entry 0 replays "! 1\n" and entry 1 replays "! 0\n", both passing the two guards against the store as forked: the guards do not exclude a cycle |
| Recall.RespelledSelfRecallPassesGuards | pa1.c:104-109 | the self-recall guard compares against the exact "! %d\n" text, so a stored "! 00\n" recalled as entry 0 is replayed: one entry can recall itself |
| Format.Digits | pa1.c:102 | %d of a non-negative value: non-empty, all decimal digits, one digit exactly below 10, no leading zero |
| Format.DigitsRoundTrip | pa1.c:102 | reading back the printed digits gives the printed number |
| Format.DigitsWidth | pa1.c:65 | %d needs at most two characters exactly for values below 100 |
| Format.IntToString | pa1.c:102 | %d of any int: a minus sign exactly for negative values, then digits only with no leading zero, which read back as the magnitude |
| Format.PadLeft | pa1.c:65 | %<width>d: the field is width characters or the text's own length if longer, the text right-aligned at its end, blanks before it |
| Format.PadLeftReadBack | pa1.c:65 | skipping the blanks of a padded field leaves exactly the digits, which read back as the number |
| Format.IntToStringInjective | pa1.c:102 | distinct integers print differently under %d |
| Format.PadLeftDigitsInjective | pa1.c:65 | distinct indices print differently under %2d |

## Left out

- fork, execvp, wait, dup2, pipe, close and exit (pa1.c:52-59, 114-135, 183-187) are oracles in `Env`. `wait` returns a pid, so the `status == -1` test at pa1.c:134 is inside the `launch` oracle and not reasoned about.
- Dispatch.ChildRun: an empty argv is excluded. It arises from a trailing separator (`ls |`), whose empty right stage is launched at pa1.c:205 (see `Dispatch.TrailingBarSpawnsEmptyStage`); the child then compares `tokens[0]`, a NULL pointer, at pa1.c:61, which is undefined behaviour, so nothing is stated about that child.
- Descriptor handling is left out. The parent's `dup2(pipe[0], STDIN_FILENO)` redirects the shell's own standard input for the rest of the session. The right stage receives the already-closed write end. Neither affects the values `run_command` computes.
- The `history` and `!` built-ins run in the forked child, so their effects never reach the parent. That includes a recalled `cd`. `ChildRun` describes the child on its own, and its exit code is not fed back into `RunCommand`.
- A recall's re-dispatch is modelled as one resolution step plus `ProcessCommand` of the stored text under the child's own `Env` (`nested`). That `Env` is not required to share the parent's `parse`, `atoi` or `home`, so the results hold for any answers. Deeper recalls happen inside further children, behind the nested `launch` oracle, where each fork may also fail. Recall termination is not claimed; the model shows only that the two guards do not exclude a cycle.
- Stored entries are taken as they were forked. The tokenizer may rewrite an entry in place inside the child (pa1.c:70 notes that a nested `!` loses its number); parser.h is not part of this model, so that rewriting is not modelled.
- `parse_command` (parser.h is not part of this model) is the `parse` oracle. Its only stated behaviour is that zero tokens gives 1. `atoi` is the `atoi` oracle, and its overflow behaviour is not modelled.
- `chdir(getenv("HOME"))` with HOME unset passes NULL to `chdir`. This is the oracle applied to `None`; the model does not assume that it fails.
- `pipe()` succeeds or fails uniformly for a given `Env` (`pipeOk`); it is not modelled per call.
- Entries and tokens are taken to hold no NUL character. Every C operation on them stops at the first NUL: `strcpy` (pa1.c:228), `%s` (pa1.c:65), `strlen` (pa1.c:72) and `strcmp` (pa1.c:106). Text after an embedded NUL is not modelled.
- Memory-safety defects are not modelled. The store is a sequence of strings, in place of the intrusive `list_head` list (list_head.h is not part of this model). The affected code is:
  - the missing `+1` in `malloc(strlen(command))` (pa1.c:227);
  - the debug loop reading ten characters of possibly shorter entries (pa1.c:66-67);
  - `strlen - 1` on an empty entry (pa1.c:72).
- History.FormatEntry: an empty entry, which the C code indexes at -1, is treated as lacking a newline. Lines read by `fgets` are never empty.
- The debug "NULL on idx" output (pa1.c:66-67) and the "Parse error near" message text are not modelled. Diagnostics are represented only by which error a branch reports.
- The main loop, prompt, colour strings, option parsing, stdin buffering and `initialize` (pa1.c:249-252, 292-346) are I/O plumbing and are left out.
