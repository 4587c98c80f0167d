# deet, a linked list and rwc, modelled in Dafny

This project models three pieces of a Rust course repository:

- **deet** (`proj-1/deet/src/debugger.rs`), a ptrace-based debugger. The model covers three things:
  - the address parser `Debugger::parse_addr`;
  - the command loop `Debugger::run`, as a state machine over the two fields it owns. `inferior` is the optional traced child process. `breakpoints` is an append-only list of addresses, and an address's index in it is its breakpoint number;
  - the `usize::from_str_radix(_, 16)` parse it relies on.
- **linked_list** (`week3/linked_list/src/linked_list.rs`), a singly linked list. It has a head pointer, boxed nodes, a cached `size`, `push_front`/`pop_front`, `Clone` and `Display`.
- **rwc** (`week2/rwc/src/main.rs`), a line/word/character counter.

Files:

- `wrappers.dfy`: the `Option` and `Result` types.
- `radix.dfy` (module `Radix`): `usize::from_str_radix` with radix 16 on a 64-bit `usize`. The library's digit walk, with its checked multiply and checked add (`Accumulate`), is proved equal to the positional value of the digits (`HexValue`) whenever that value fits.
- `deet.dfy` (module `Deet`): `ParseAddr`, the `{:#x}` address format and a round trip between them. Also the class `Debugger`, with one method per command arm, `Step` (one pass of the loop) and `Run` (the loop). The helpers `Pass` and `Loop` state a pass and the loop against the fold of one pass per command (`SessionAfter`, `ReportsAfter`, `CallsAfter`), and `FlowAt` says how the loop goes on after each command.
  - The inferior is an abstract handle, `Inferior(pid)`.
  - What `terminate`, `Inferior::new`, `cont` and `write_byte` return is not computed. It is a parameter, a `World` record for each command.
  - The debugger keeps a ghost log, `calls`, of every call it makes on an inferior. The contracts use it to state the order and the arguments of those calls.
  - The class invariant `Valid()` is a fact about the calls in that log, not about traps installed in a running process. It says that the current inferior, running or not, was started with, or has since had `write_byte` called for, every registered address, in order. A failed write still counts, and so does an inferior that has exited or been terminated.
- `linked_list.dfy` (module `Lists`): the classes `Node` and `LinkedList`. Each has a ghost `Contents` sequence and a ghost `Repr` footprint. `LinkedList.Valid()` says that the nodes from `head` hold `Contents`, one value per node, and that `size == |Contents|`.
- `rwc.dfy` (module `Rwc`): the lines of the file are given as a sequence of byte strings, with terminators removed. `Split` models `str::split(' ')`.

Behaviour of the code that the model keeps, although a debugger might be expected to refuse these commands gracefully:

- `quit` and `backtrace` unwrap `inferior`. With no inferior they panic (`Flow.Panic`); they do not end quietly.
- `inferior` is never cleared. After the target exits, or after `quit`'s terminate, it is still `Some`. A `run` whose `Inferior::new` fails leaves the previous, already terminated inferior in place.
- `parse_addr` accepts one leading `+` after the optional prefix, because `from_str_radix` does: `"+1a"` and `"0x+1a"` both give 26. A `-` is refused.
- The prefix test `to_lowercase().starts_with("0x")` is modelled as `s[0] == '0'` and `s[1]` in `{'x', 'X'}`. No other character lowercases to `'0'` or `'x'`, so the two agree.

## Model

| member | source | states |
|---|---|---|
| `Radix.Accumulate` | proj-1/deet/src/debugger.rs:58 | the checked left-to-right digit loop succeeds exactly when every remaining character is a hex digit and the positional value of all the digits is at most `usize::MAX`, and then it returns that value |
| `Radix.FromStrRadix16` | proj-1/deet/src/debugger.rs:58 | `from_str_radix(s, 16)` is `Some` exactly when the digits, after one optional leading `+`, are non-empty, all hex and at most `usize::MAX` in value, and then it is their positional value; an empty string, a lone sign and a `-` are refused |
| `Radix.HexValueGrows` | proj-1/deet/src/debugger.rs:58 | appending digits never decreases the value, which is why an overflow detected part-way rules out the whole string |
| `Deet.ParseAddr` | proj-1/deet/src/debugger.rs:52-59 | the result is `Some(v)` exactly when the text after an optional `0x`/`0X` prefix (and one `+`) is a non-empty string of hex digits whose value fits a `usize`; `v` is that value |
| `Deet.PrefixOptional` | proj-1/deet/src/debugger.rs:53-57 | the prefix is optional and case-insensitive: `"0x" + s`, `"0X" + s` and `s` parse alike when `s` has no prefix of its own |
| `Deet.ParseAddrAccepts` | proj-1/deet/src/debugger.rs:52-59 | `"0x1a"`, `"0X1A"`, `"1a"` and `"+1a"` all parse to 26 |
| `Deet.ParseAddrRefuses` | proj-1/deet/src/debugger.rs:52-59 | `""`, `"0x"`, `"xyz"`, `"0xg1"`, `"-1"` and `"+"` are refused |
| `Deet.ToHexValue` | proj-1/deet/src/debugger.rs:139-143 | the digits `{:x}` prints for `n` have the value `n` |
| `Deet.ParseFormatRoundTrip` | proj-1/deet/src/debugger.rs:52-59 | an address printed with `{:#x}` parses back to itself when it fits a `usize`, and every larger number is refused |
| `Deet.Debugger.constructor` | proj-1/deet/src/debugger.rs:42-49 | a new debugger has no inferior, no breakpoints and has made no calls |
| `Deet.Debugger.RunCommand` | proj-1/deet/src/debugger.rs:84-105 | a live inferior is terminated before `Inferior::new` is called; the new inferior gets the whole current breakpoint list and is continued once; a failed start leaves `inferior` as it was; the breakpoints are unchanged; the reports are the terminate status, then the run status or "error starting" |
| `Deet.Debugger.ContinueCommand` | proj-1/deet/src/debugger.rs:106-117 | with no inferior: no call and the "run target first" report; otherwise exactly one `cont` on it, whose status or error is reported; neither field changes |
| `Deet.Debugger.BacktraceCommand` | proj-1/deet/src/debugger.rs:118-124 | with no inferior the unwrap panics; otherwise one backtrace call on it; neither field changes |
| `Deet.Debugger.BreakpointCommand` | proj-1/deet/src/debugger.rs:125-147 | a valid address is appended to `breakpoints` and reported as number `len - 1`, even when the write fails; the trap byte `0xcc` is written to the inferior only when there is one; invalid text changes nothing and reports "invalid breakpoint format" |
| `Deet.Debugger.QuitCommand` | proj-1/deet/src/debugger.rs:148-156 | with an inferior: one terminate call, its report, and the loop returns; with none the unwrap panics |
| `Deet.Debugger.Step` | proj-1/deet/src/debugger.rs:83-157 | one pass of the loop keeps the invariant; its new inferior, breakpoint list, printed reports and calls on inferiors are exactly those the matching arm gives (`NextInferior`, `NewAddrs`, `Reports`, `Calls` on the state before it); the loop goes on, returns or panics as `FlowOf` says |
| `Deet.Debugger.Run` | proj-1/deet/src/debugger.rs:81-159 | the loop goes on after every command before the last (`FlowAt` is `Next`) and stops on the last by `return` or by panic exactly as that command's arm does from the inferior the earlier commands left: at the first `quit` (end of input reads as `quit`), returning only when there is an inferior, or at a `backtrace` with no inferior; `breakpoints` has grown by exactly the valid addresses from the `break` commands handled, in order; the final fields, everything printed and every call on inferiors are the fold of one pass per command handled (`SessionAfter`, `ReportsAfter`, `CallsAfter`) |
| `Deet.SessionAfterInferior` | proj-1/deet/src/debugger.rs:84-105 | along any run of commands the inferior is never cleared; it stays as it was until a `run` starts a process; otherwise it is one that some `run` started |
| `Deet.SessionAfterBreakpoints` | proj-1/deet/src/debugger.rs:125-147 | along any run of commands the breakpoint list is the initial list followed by the valid addresses of the `break` commands read, in order |
| `Lists.Node.constructor` | week3/linked_list/src/linked_list.rs:21-26 | a node holds `value` in front of the chain at `next` |
| `Lists.LinkedList.constructor` | week3/linked_list/src/linked_list.rs:30-35 | a new list has no elements and size 0 |
| `Lists.LinkedList.GetSize` | week3/linked_list/src/linked_list.rs:37-39 | the cached size is the number of elements |
| `Lists.LinkedList.IsEmpty` | week3/linked_list/src/linked_list.rs:41-43 | true exactly when the list has no elements |
| `Lists.LinkedList.PushFront` | week3/linked_list/src/linked_list.rs:45-49 | the contents become `[v] + old contents` and the size grows by one, keeping `size` equal to the node count |
| `Lists.LinkedList.PopFront` | week3/linked_list/src/linked_list.rs:51-56 | on a non-empty list it returns `Some(first)`, leaves the tail and decrements the size; on an empty list it returns `None` with the size unchanged |
| `Lists.PushThenPop` | week3/linked_list/src/linked_list.rs:45-56 | `push_front(v)` then `pop_front()` returns `Some(v)` and restores the contents and size |
| `Lists.ReversedSnoc` | week3/linked_list/src/linked_list.rs:92 | inserting at position 0 while walking forward builds the reversal of the prefix walked |
| `Lists.ReversedTwice` | week3/linked_list/src/linked_list.rs:98-101 | pushing the reversed values to the front of an empty list restores the original order |
| `Lists.LinkedList.CollectReversed` | week3/linked_list/src/linked_list.rs:87-97 | walking the nodes head to tail and inserting each value at position 0 yields the contents reversed |
| `Lists.LinkedList.Clone` | week3/linked_list/src/linked_list.rs:85-103 | the copy is a fresh list with the same elements in the same head-to-tail order and the same size; the original is not modified |
| `Lists.RenderedAppend` | week3/linked_list/src/linked_list.rs:63-71 | the text of a list is the text of its front part followed by the text of its back part |
| `Lists.RenderedLength` | week3/linked_list/src/linked_list.rs:66 | the text has one space per element plus the text of every element |
| `Lists.LinkedList.Fmt` | week3/linked_list/src/linked_list.rs:59-73 | the output is each element preceded by one space, head to tail; an empty list gives the empty string |
| `Rwc.Split` | week2/rwc/src/main.rs:25 | `split(' ')` always yields at least one piece |
| `Rwc.SplitCount` | week2/rwc/src/main.rs:25 | a line has one more piece than it has spaces, so an empty line counts as one word |
| `Rwc.JoinSplit` | week2/rwc/src/main.rs:25 | joining the pieces with single spaces gives the line back |
| `Rwc.SplitPiecesHaveNoSpace` | week2/rwc/src/main.rs:25 | no piece contains a space |
| `Rwc.WordTotalIsSpacesPlusLines` | week2/rwc/src/main.rs:23-25 | the word count is the number of spaces plus the number of lines |
| `Rwc.TotalsGrow` | week2/rwc/src/main.rs:23-25 | the character and word counts after a prefix of the lines are at most those after all of them, so the counters never decrease |
| `Rwc.Count` | week2/rwc/src/main.rs:16-29 | the line count is the number of lines; the character count is the sum of the lines' byte lengths; the word count is the sum of the `split(' ')` piece counts, equal to spaces plus lines and never below the line count; an empty input gives all three as 0 |
| `Rwc.Run` | week2/rwc/src/main.rs:6-32 | fewer than two arguments gives "too few arguments" (exit status 1) without opening anything; a file that cannot be opened ends in the open failure; otherwise the result is the three counts of the file's lines |

## Left out

- The inferior's internals are not modelled: ptrace, fork/exec, waitpid, memory pokes, breakpoint step-over and stack walking. They are foreign OS calls, and their results are parameters (`World`).
- DWARF symbol lookups are not modelled. They are in files this model does not include.
- `Debugger::new` is modelled only to the point of the fields it initialises. Reading the target file, loading symbols, `std::process::exit`, the `HOME` variable and the history file are I/O.
- `get_next_command` is left out: the readline prompt, history saving, ignoring ctrl-c and tokenising. `DebuggerCommand::from_tokens` is not part of this model. Commands arrive already parsed; end of input reads as `quit`, as ctrl-d does.
- The text that `print_status` and the other `println!` calls print is I/O. It is modelled only as `Report` values. The `unwrap` of the DWARF lookups inside `print_status`, which could panic, is not modelled.
- `Deet.Debugger.BacktraceCommand`: the frames printed are not modelled. The `Result` of `print_backtrace` is discarded by the source, so it is not a parameter.
- `Lists.LinkedList.PushFront`: `size` is an unbounded `nat`, so the overflow of a `usize` `size += 1` is not modelled. No list can reach that length in memory.
- `Rwc.Count`: the counters are unbounded, so `usize` overflow is not modelled.
- `Rwc.Run`: `File::open` and `BufReader::lines` are I/O. The file system is a parameter that gives the lines with their terminators already stripped. A read error part-way through (a panic) is not modelled, and neither is the final `println!`.
- `ComputeNorm`/`compute_norm` is left out: it is floating-point arithmetic and a square root.
- The `Drop` impl of the list is left out: it only frees memory.
- `week6/parallel_map` is left out: it is about threads and channels.
- `Rwc.Split` works on bytes where the source splits a `&str` on the character `' '`. The two agree, because the byte 0x20 occurs in UTF-8 only as a space.
- The in-place moves of `Option::take()` and `Box` ownership are modelled as plain field updates on heap objects.
- `Lists.LinkedList.CollectReversed`: `node.value.clone()` is modelled as the value itself. This assumes `T::clone` returns a value equal to the original.
