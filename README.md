# Vaydeer keypad monitor on Linux, modelled in Dafny

`vaydeer.c` is one `main`. It takes a single pass over `/sys/class/hidraw` and keeps only symbolic-link entries. For each link it looks up the parent device's `HID_NAME` through libudev and compares it with `strncmp("Vaydeer", hidName, 5)`. Each keypad that opens is appended to the 20-slot `struct pollfd pfds[20]`. If no keypad was found, the program exits with code 1. Otherwise it calls `poll` over the table until `poll` returns a negative value. In each round, every slot whose `revents` has `POLLIN` gets one 1-byte `read`, and a spinner glyph from `"-\\|-/"` is written.

The model keeps that structure:

- `CString` models C's view of a string: a read past the end yields the terminator. It also models `strncmp(a, b, n) == 0` and proves when that holds.
- `Vendor` holds the `HID_NAME` test exactly as written: five characters of "Vaydeer".
- `Discovery` models one directory entry as a record of what the system answered for it (`Entry`). `Classify` is the decision the loop body takes. `ScanFrom` is the specification of the whole pass, and the lemmas about the pass sit beside it. `Matched` is an independent reference for which slots a complete scan produces.
- `Spinner` models the tumbler string and the pointer that walks it, as an index.
- `Poller` holds specification functions for one dispatch round (`RoundFrom`/`Round`) and for the `poll` loop (`PollLoop`), with their lemmas. A call of `poll` is an input: its return value and the `revents` of each slot.
- `Monitor.KeypadMonitor` is a class with the state `main` updates in place:
  - the `pfds` array of 20 slots;
  - `fdCount`;
  - the spinner position `ptr`;
  - a `log` of each byte read, with the glyph written after it.

  Its methods `Append`, `Scan`, `Dispatch` and `Run` are the loops of the source. Each is proved against the specification functions above.
- `Program.RunMain` is `main` end to end. `MainSpec` is its specification. The lemmas next to it give the exit codes: 1 on every setup failure and when no keypad is found, 0 when `poll` fails.

Foreign calls become inputs:

- `opendir` becomes a boolean, `dirOpened`.
- `readdir`, `lstat`, `realpath`, `udev_new`, `udev_device_new_from_syspath`, `udev_device_get_parent`, the `HID_NAME` lookup and `open` become the fields of each `Entry`. The `HID_NAME` field is an `Option`, and `None` stands for NULL. `open`'s result is an `int` that counts as success when it is `>= 0`, as in the source.
- `poll` becomes a sequence of `Poll` answers. `revents` are 16-bit masks, with `POLLIN = 0x001` as on Linux.

## Model

| member | source | states |
|---|---|---|
| CString.EqualFromIff | vaydeer.c:62 | From position `k`, the `strncmp` comparison loop with a pattern that has no NUL succeeds exactly when the other string has the pattern's characters at every position `k..n-1`. |
| CString.StrNCmpZeroIff | vaydeer.c:62 | `strncmp(a, b, n) == 0`, where `a` has no NUL among its first `n` characters, holds exactly when `b` has at least `n` characters and `b[..n] == a[..n]`. |
| Vendor.IsVendorIff | vaydeer.c:62 | The vendor test holds exactly when `HID_NAME` has at least 5 characters and begins with "Vayde". |
| Vendor.TrailingIgnored | vaydeer.c:62 | Characters after the fifth never change the vendor verdict. |
| Vendor.Examples | vaydeer.c:62 | Passes: "Vaydeer", "Vaydeerz-Pro", "VaydeX". Fails: "Vayd", "vaydeer", "". |
| Spinner.Advance | vaydeer.c:100-103 | `ptr++`, with the wrap to the start at the terminating NUL, moves index `p` to `(p + 1) % 5`. The index stays in 0..4. |
| Spinner.AdvanceBy | vaydeer.c:100-103 | Any number of advances keeps the spinner index in 0..4. |
| Spinner.AdvanceByMod | vaydeer.c:99-103 | `n` advances from `p` reach exactly `(p + n) % 5`. |
| Spinner.AdvanceByAdd | vaydeer.c:99-103 | `m` advances followed by `n` advances equal `m + n` advances. |
| Spinner.GlyphCycle | vaydeer.c:89-90 | From start-up the first glyph is '-'. After `k` advances the glyph is `Tumbler[k % 5]`, so the glyphs repeat with period 5. |
| Discovery.ScanFrom | vaydeer.c:37-85 | The scan never holds more than 20 slots. It only extends the table it started with. Every slot it adds has a descriptor `>= 0` and `events == POLLIN`. |
| Discovery.ScanComplete | vaydeer.c:37-85 | A scan completes exactly when no entry is fatal and the keypads found fit in the 20 slots. Then the table is the old table followed by `Matched(entries)`, which is every keypad that opened, in directory order. |
| Discovery.ScanSplit | vaydeer.c:37-38 | Scanning `first + second` is scanning `first`, then, unless that failed, `second` from the table `first` left. |
| Discovery.StopsAtFailure | vaydeer.c:45-73 | Once a failure has ended the scan, entries after it change nothing. |
| Discovery.NonLinkIgnored | vaydeer.c:41-42 | An entry that is not a symbolic link leaves the table and the outcome as if it were absent, whatever its udev and open fields say. None of them is consulted. |
| Discovery.AppendsAtNextSlot | vaydeer.c:65-70 | A keypad that opens goes into slot `fdCount` with `events == POLLIN`, and the scan continues from the grown table. When all 20 slots are taken, the scan stops with `TooManyDevices`. |
| Discovery.ScanUnchecked | vaydeer.c:68-70 | The loop as written, with no capacity check, only ever extends the table. |
| Discovery.UncheckedOpens | vaydeer.c:68-70 | The unchecked loop grows the table by one for every entry that opens, with no upper bound. |
| Discovery.UncheckedOverflows | vaydeer.c:68-70 | With 21 keypads, the unchecked loop writes a 21st slot, `pfds[20]`, which is outside the 20-slot array declared at line 35. |
| Discovery.CheckedAgrees | vaydeer.c:68-70 | The capacity-checked scan equals the unchecked loop whenever the latter stays within 20 slots. Otherwise it reports `TooManyDevices`. |
| Poller.RoundFrom | vaydeer.c:95-106 | A round leaves the spinner index in 0..4. |
| Poller.Round | vaydeer.c:95-106 | A whole round leaves the spinner index in 0..4. |
| Poller.RoundPtr | vaydeer.c:99-103 | A round ends with the spinner one step further for each byte it read. |
| Poller.RoundFromSpec | vaydeer.c:95-106 | From slot `i`, a round reads only ready slots at or after `i`, through each slot's descriptor. It reads them in strictly increasing slot order, every such ready slot is read, and the k-th byte shows the glyph k steps on. |
| Poller.RoundSpec | vaydeer.c:95-106 | One round reads exactly the slots whose `revents` has `POLLIN`, once each, in increasing index order, through `pfds[i].fd`. The k-th byte shows `Tumbler[(ptr + k) % 5]`, and the spinner ends `(ptr + reads) % 5`. |
| Poller.PollLoop | vaydeer.c:94-107 | The loop runs one round for each non-negative answer of `poll`. It stops at the first negative answer and returns it. It has no other exit. |
| Poller.PollLoopStops | vaydeer.c:94 | The loop ends exactly when some answer of `poll` is negative. |
| Poller.PollLoopPtr | vaydeer.c:99-103 | Over the whole loop the spinner advances once per byte read. |
| Poller.PollLoopGlyphs | vaydeer.c:95-103 | Over the whole loop, every byte is read from a registered slot through that slot's descriptor, and the k-th byte shows the glyph k steps after the start. |
| Monitor.KeypadMonitor.constructor | vaydeer.c:33-35 | Starts with a fresh 20-slot table, `fdCount == 0`, and the spinner at the first glyph. |
| Monitor.KeypadMonitor.Append | vaydeer.c:68-70 | Fills slot `fdCount` with `(fd, POLLIN)` and increments `fdCount`, leaving earlier slots unchanged. A full table is refused. |
| Monitor.KeypadMonitor.Scan | vaydeer.c:37-85 | The imperative `readdir` loop produces exactly the table and failure that `ScanFrom` gives, and `0 <= fdCount <= 20` holds throughout. |
| Monitor.KeypadMonitor.Dispatch | vaydeer.c:95-106 | The `for` loop over slots leaves the spinner and the log exactly as `Round` says. |
| Monitor.KeypadMonitor.Run | vaydeer.c:93-107 | The `poll` loop leaves the stop value, the spinner and the log exactly as `PollLoop` says. |
| Program.RunMain | vaydeer.c:22-114 | The whole program produces exactly the status and events of `MainSpec`. |
| Program.ExitOneIff | vaydeer.c:27-111 | Exit code 1 happens exactly when: the directory does not open, the scan fails, or the scan finds no keypad. In each of those cases no byte is read. |
| Program.NoKeypadsExit | vaydeer.c:87-111 | When nothing is fatal, the program gives up with "no devices" exactly when no entry is a keypad that opens. |
| Program.ExitZeroIff | vaydeer.c:94-113 | Exit code 0 happens exactly when setup found at least one keypad and some answer of `poll` was negative. |
| Program.MainGlyphs | vaydeer.c:89-103 | From start-up the k-th byte read shows `"-\\|-/"[k % 5]`, and every byte is read from a registered keypad's descriptor. |
| Program.OneKeypadOneByte | vaydeer.c:37-113 | Scenario: one keypad, one readable byte, then a failing `poll`. Result: one read from slot 0 showing '-', then exit 0. |

## Left out

- The foreign calls are not modelled: `opendir`/`readdir`/`closedir`, `chdir`, `realpath`, `lstat`, libudev, `open`, `poll` and `read`. What they answered is an input to the model.
- The 1000 ms `poll` timeout and all timing are not modelled, because wall-clock time is outside the model.
- Terminal text is not modelled: the messages, the `\b` overwrite and `fflush`. Only the glyph written after each read is recorded, in the log.
- The `HID_PHYS` lookup (vaydeer.c:63) is not modelled, because its result is never used.
- The count returned by `read` (vaydeer.c:98) is not modelled, because it is never used. The byte read is not modelled either, because it is discarded. Every `read` is logged as one event.
- `udev_device_unref` and `udev_unref` are not modelled. They only release libudev's reference counts.
- None of these appear in `vaydeer.c`, so the model has none of them: command-line flags, the lock file, process-id printing, key-index printing.
- A NULL `HID_NAME` (vaydeer.c:61-62) makes the C call `strncmp` with NULL, which is undefined behaviour. The model treats a missing name as a non-match.
- Descriptors are never closed. The source does not close them either: it returns from `main`.
- A fixed sequence of `poll` answers cannot show a loop that never ends. The real program polls forever while `poll` keeps returning `>= 0`. When every answer in the sequence is non-negative, the model reports `Running`.
- `Monitor.KeypadMonitor.Dispatch`, `Monitor.KeypadMonitor.Run` and `Program.RunMain` require that each `poll` answer gives one `revents` per registered slot. This is what `poll` fills in for its `nfds` entries.
- The source and the design description disagree in three places; the model follows the source:
  - The design calls for a configurable vendor prefix length. The source fixes it at 5, and so does the model (`Vendor.PrefixLen`).
  - The design says handles are closed when `poll` fails. The source just returns 0.
  - The design describes a lock protocol and command-line flags. Neither exists in `vaydeer.c`.
- A 21st keypad is not handled the way the source handles it. The source writes it past the end of `pfds`. The model rejects it with `TooManyDevices` and exit code 1 (see Findings).

## Findings

| source | as written | input that shows it | evidently intended | confidence | as-written member | corrected member |
|---|---|---|---|---|---|---|
| vaydeer.c:35, 68-70 | `pfds[fdCount]` is assigned and `fdCount` incremented with no check against the 20 slots of `pfds` | 21 symbolic-link entries whose parent `HID_NAME` is "Vaydeer" and whose node opens: the 21st is stored at `pfds[20]`, past the end of the array | refuse a keypad beyond the 20th with a defined error (the comment "we only expect to find 20 keys" shows the bound was assumed, not enforced) | not executed | Discovery.UncheckedOverflows | Discovery.CheckedAgrees |
