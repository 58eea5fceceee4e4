# CUPSplusplus in Dafny

A model of CUPSplusplus, a small C++ wrapper around the CUPS client library. It models the two things
the wrapper adds around the library:

- it turns CUPS's mixed error conventions into one typed error, `CupsError`, tagged with the phase that
  failed. These conventions are negative counts, job ids and HTTP/IPP statuses, plus a global last-error
  state.
- it runs the four-phase protocol that submits a job. When a CUPS call fails after the job was created,
  the job is always cancelled.

The library itself is not modelled. Each CUPS call is replaced by what it hands back: a destination count
and its records, or a status, together with the global last-error state right after the call. The calls
`print` and the `JobGuard` destructor make are recorded, in order, in a ghost log of `NativeCall` values,
and cancel requests are read from this log. `GetPrinters` counts its `cupsFreeDests` calls in a ghost
`frees` counter. `cupsGetDests` and the last-error reads (`cupsLastError`, `cupsLastErrorString`) are
inputs, not log entries.

Modules. `CupsError` models CupsError.hpp. `Cups` and `JobGuards` split Cups.hpp and Cups.cpp between
them. `Expected`, `Native` and `KeyOrder` model the library types and the CUPS and C++ library behaviour
that the wrapper relies on:

- `Expected`: `std::expected` and an `Option` for nullable pointers.
- `Native`: the inputs from CUPS, the log of CUPS calls, and the success test each call needs. Start
  and write must return `HTTP_STATUS_CONTINUE` (100). Finish must return `IPP_STATUS_OK` (0). The
  wrapper counts a job id that is not negative as created.
- `CupsError` (CupsError.hpp): the six phases and the error constructor.
- `KeyOrder`: the order of `std::less<>` on string keys, which is the order a `std::map` is iterated in.
- `Cups` (Cups.hpp, Cups.cpp): the `CupsPrinter` class.
  - `GetPrinters`, `GetDefaultPrinter` and `Print` are methods.
  - `BuildName` and the `find_if` search are functions.
  - The three loops are loops with invariants: the outer `push_back` loop over the destinations (in
    `GetPrinters`), the inner `emplace` loop over one destination's options (`CopyOptions`), and the loop
    that builds the option array for `print` (`OptionArray`).
- `JobGuards` (Cups.hpp): the move-only `JobGuard` class. It also holds a value model of a guard and
  all the guards moved out of it. The lemmas about "at most one armed guard" and "at most one cancel"
  are proved over that model.

Three behaviours of the code, stated as the code has them:

- `print` does not use `JobGuard`. Its guard is a `unique_ptr` whose deleter cancels any job id that
  passed the `< 0` check, including 0. `JobGuard`'s destructor cancels only ids above 0. The CUPS
  library itself documents 0 as the error return of `cupsCreateJob`, and a job id of 0 in `cupsCancelJob`
  as "the current job". So when creation returns 0 and a later phase fails, `print` sends a cancel for job
  0. The model states this as the code does it.
- Move-assigning onto an armed `JobGuard` overwrites its armed flag. The job it guarded is never
  cancelled. `MoveAssign` states this as written.
- `GetPrinters` calls `cupsFreeDests` only when the count is positive. For a zero or negative count
  nothing is freed. The ghost `frees` counter records this.

## Model

| member | source | states |
|---|---|---|
| `CupsError.Ordinal` | CupsError.hpp:11-19 | The underlying value of every phase is below 6. |
| `CupsError.SixPhases` | CupsError.hpp:11-19 | There are exactly six phases. `Ordinal` and `FromOrdinal` are inverse, so the values are distinct and cover 0 to 5. |
| `CupsError.MakeError` | CupsError.hpp:29-35 | The error keeps the phase it was built for. A "no default printer" error has status `IPP_STATUS_OK` and the fixed message. Every other phase takes status and message from the last-error state. |
| `CupsError.NoDefaultIgnoresLastError` | CupsError.hpp:30-32 | A "no default printer" error is the same whatever the last-error state. It does not sample that state, and its message is not empty. |
| `CupsError.NativeErrorCapturesLastError` | CupsError.hpp:30-32 | For the other phases, the last-error code and string can be read back from the error's status and message. |
| `Native.JobCreated` | Cups.cpp:99-105 | The wrapper counts a job id that is not negative as created, so an id of 0 counts too. |
| `Native.DocumentStarted` | Cups.cpp:131 | `cupsStartDocument` succeeded exactly when it returned `HTTP_STATUS_CONTINUE` (100). |
| `Native.DataWritten` | Cups.cpp:136 | `cupsWriteRequestData` succeeded exactly when it returned `HTTP_STATUS_CONTINUE` (100). |
| `Native.DocumentFinished` | Cups.cpp:141 | `cupsFinishDocument` succeeded exactly when it returned `IPP_STATUS_OK` (0). |
| `KeyOrder.Less` | Cups.cpp:88 | The `std::less<>` order in which the range-for visits the option map: lexicographic by character, with a proper prefix before its extensions. `LessIrreflexive`, `LessTransitive` and `LessTotal` prove it a strict total order. `LeastExists` proves that every non-empty key set has a least key. |
| `Cups.FormatString` | Cups.cpp:107-116 | Every format selects one of `text/plain`, `application/pdf` and `application/postscript`, so the switch never reaches `std::unreachable`. |
| `Cups.InstanceOrEmpty` | Cups.cpp:46 | A null instance pointer becomes `""`. A present instance is copied unchanged. |
| `Cups.GuardDeleter` | Cups.cpp:118-128 | The deleter issues one call exactly when it still holds a job id, and that call is a cancel for the destination and that id, whatever its value. |
| `Cups.FormatStringsDistinct` | Cups.cpp:107-116 | TEXT, PDF and POSTSCRIPT select `text/plain`, `application/pdf` and `application/postscript`. Distinct formats select distinct identifiers. |
| `Cups.FirstWinsSnoc` | Cups.cpp:41 | One `emplace` adds the option's name with its value only when the name is new. Otherwise the map is unchanged. |
| `Cups.CopyOptions` | Cups.cpp:37-42 | The option map has exactly the native option names as keys. A repeated name keeps the value of its first occurrence. |
| `Cups.FirstWinsUnique` | Cups.cpp:37-42 | The native options determine the option map uniquely. |
| `Cups.OptionArray` | Cups.cpp:85-97 | The option array passed to `cupsCreateJob` lists every entry of the option map exactly once, with its value, in ascending key order. |
| `Cups.ListedBeforeStep` | Cups.cpp:88-97 | Appending the least key not yet listed, with its value, keeps the array in ascending key order and covers one more key of the map. |
| `Cups.InKeyOrderHead` | Cups.cpp:88-97 | The first entry of the option array holds the least key of the map, with its value. |
| `Cups.InKeyOrderUnique` | Cups.cpp:88-97 | Only one array satisfies that description, so the arguments of `cupsCreateJob` are determined by the option map. |
| `Cups.SplitTarget` | Cups.cpp:75-78 | Splitting at the first `/` recovers `(name, "")` from a bare name and `(name, instance)` from `name/instance`, when the name has no `/`. |
| `Cups.TargetNameRoundTrip` | Cups.cpp:75-78 | The target identifier of a printer gives back its name and instance, so distinct printers get distinct targets. |
| `Cups.Listed` | Cups.cpp:19-35 | The records read are none unless the count is positive. For a count of zero or more, there are exactly `count` of them. |
| `Cups.PhasesRun` | Cups.cpp:99-145 | `print` runs every phase up to and including the first failing one. All phases before it succeeded, and the last one run failed unless all four ran. |
| `Cups.TraceCancels` | Cups.cpp:118-147 | The log of a submission holds exactly one cancel, for the target and the job id, when the job was created (id not negative) and a later phase failed. It holds none when creation failed or all four phases passed, because the guard holds nothing after `release`, so no cancel is issued. |
| `Cups.TraceFollowsProtocol` | Cups.cpp:99-145 | The log is the protocol's create, start, write and finish calls up to the first failing phase, followed only by cancels. A phase after a failing one is never attempted. |
| `Cups.CupsPrinter.constructor` | Cups.hpp:23-28 | The getters `getName`, `getInstance`, `isDefault` and `getOptions` return exactly the values stored by the constructor. |
| `Cups.CupsPrinter.BuildName` | Cups.cpp:75-78 | The target is the name when the instance is empty. Otherwise it is the name, then `/`, then the instance. |
| `Cups.CupsPrinter.SetOption` | Cups.hpp:112-115 | Afterwards the key maps to the new value, whether or not it was present. Every other key keeps its presence and value. |
| `Cups.CupsPrinter.FindDefault` | Cups.cpp:64 | The search returns the first printer flagged default. It returns nothing only when no printer is flagged. |
| `Cups.CupsPrinter.GetPrinters` | Cups.cpp:8-55 | A negative count gives a `GetDests` error with the last-error state. A zero count gives an empty list. A positive count gives exactly `count` new, distinct printers in native order. Each copies its record's name, its instance (a null instance becomes `""`), `is_default != 0`, and the options with the first value winning. The array is freed exactly once when the count is positive, and not at all otherwise. |
| `Cups.CupsPrinter.GetDefaultPrinter` | Cups.cpp:57-73 | An enumeration error is forwarded unchanged. Otherwise a printer is returned exactly when some record is flagged default. That printer is a new object, returned by value, and a copy of the first flagged record. If none is flagged, the error is `NoDefaultPrinter` with status OK and the fixed message. |
| `Cups.CupsPrinter.Print` | Cups.cpp:80-149 | Success exactly when all four phases pass their own test. Otherwise the error names the first failing phase and carries that phase's last-error state. The job is created with the printer's target, the job name and an option array listing the option map in key order. The log equals `Trace` of these inputs: the phases up to the first failing one, then the guard's cancel. By `TraceCancels` and `TraceFollowsProtocol` this means one cancel exactly when creation succeeded and the submission failed, and none otherwise. |
| `Cups.CopiesDetermined` | Cups.cpp:44-49 | Two printers copied from the same native record agree on name, instance, default flag and options, so repeated listings of one native state are equal. |
| `JobGuards.MovedFrom` | Cups.hpp:44 | A moved-from guard keeps its job id and is disarmed. |
| `JobGuards.Destruction` | Cups.hpp:65-71 | The destructor issues at most one call. It issues one exactly when the id is positive and the guard is armed, and that call is a cancel for the guard's name and id. |
| `JobGuards.JobGuard.constructor` | Cups.hpp:61-64 | A new guard stores the given id and name and is armed. |
| `JobGuards.JobGuard.Move` | Cups.hpp:43-47 | The new guard takes the source's id, name and armed flag. The source keeps its id and is disarmed. |
| `JobGuards.JobGuard.MoveAssign` | Cups.hpp:50-60 | Assigning a guard to itself changes nothing. Otherwise the target takes the source's id, name and armed flag, and the source is disarmed. |
| `JobGuards.JobGuard.Dismiss` | Cups.hpp:72 | The guard is disarmed, nothing else changes, and its destructor then issues no call. |
| `JobGuards.JobGuard.Destroy` | Cups.hpp:65-71 | The destructor issues the calls `Destruction` describes for the guard's current fields. |
| `JobGuards.MoveConstructAgrees` | Cups.hpp:43-47 | Move-constructing a guard out of another leaves the pair exactly as `OpMoveConstruct` leaves a one-guard family. So the family lemmas below describe the class. |
| `JobGuards.MoveAssignAgrees` | Cups.hpp:50-60 | Move assignment leaves the two guards exactly as `OpMoveAssign` leaves the family of those two, and self-assignment as it leaves a one-guard family. |
| `JobGuards.DismissAgrees` | Cups.hpp:72 | `dismiss` leaves the guard exactly as `OpDismiss` leaves a one-guard family. |
| `JobGuards.DestroyAgrees` | Cups.hpp:65-71 | The destructor makes exactly the calls `OpDestroy` makes on a one-guard family. |
| `JobGuards.ApplyKeepsGuarding` | Cups.hpp:43-72 | Every guard operation preserves this invariant: armed guards plus issued cancels are at most one, and every armed guard and every cancel is for the guarded job. |
| `JobGuards.RunKeepsGuarding` | Cups.hpp:43-72 | Any sequence of guard operations preserves the same invariant. |
| `JobGuards.AtMostOneCancel` | Cups.hpp:43-72 | Across a guard and all guards moved out of it, at most one is armed and at most one cancel is issued, whatever is done with them. |
| `JobGuards.MovesKeepExactlyOne` | Cups.hpp:43-71 | With only move construction and destruction, armed guards plus issued cancels stay exactly one for a positive job id. |
| `JobGuards.ExactlyOneCancel` | Cups.hpp:43-71 | A guard on a positive id that is only moved by construction issues exactly one cancel once every guard is destroyed. |

## Left out

- main.cpp, the command-line driver, is not part of this model. It only prints and chooses exit codes.
- The CUPS library is not modelled: `cupsGetDests`, `cupsCreateJob`, `cupsStartDocument`, `cupsWriteRequestData`, `cupsFinishDocument`, `cupsCancelJob`, `cupsFreeDests` and `cupsLastError`/`cupsLastErrorString`. Their results are parameters. The calls `print` and the `JobGuard` destructor make are a ghost log; `cupsFreeDests` is a ghost counter; `cupsGetDests` and the last-error reads are inputs. The `CUPS_HTTP_DEFAULT` connection argument is dropped.
- `Cups.CupsPrinter.GetPrinters` requires that a positive count comes with that many records. This is the library's promise, not a check the wrapper makes.
- Pointer lifetimes are not modelled: the `unique_ptr` over the destination array, the `new`/`delete` of the job id, and the `const_cast` of option strings. Only "freed once" is kept, as a ghost counter. Whether CUPS keeps or mutates the option strings is not modelled.
- The `std::unreachable` after the format switch is not modelled, because the `Format` datatype has only three values.
- The guard in `print` is a ghost `Option` holding the job id, as the `unique_ptr` does. Its deleter is `GuardDeleter`.
- `JobGuards.JobGuard.Move`, `JobGuards.JobGuard.MoveAssign`: the name left in a moved-from `std::string` is unspecified in C++, so the model leaves it open.
- `Cups.CupsPrinter.GetPrinters`, `Cups.CupsPrinter.Print`: `int` counts and the `size_t` casts are unbounded integers. This includes the `static_cast<int>(opts.size())` that `print` passes to `cupsCreateJob` (Cups.cpp:100). A destination's `num_options` (Cups.cpp:38) is the length of its `options` sequence, so a negative `num_options` has no counterpart here. `std::less<>` compares characters as `unsigned char`. Here it is the order of Dafny characters.
- The empty `NoPrinters` struct (Cups.hpp:84) is unused by the code and is not modelled.
- Strings are sequences of Unicode characters, and they are assumed to hold no NUL character. A `std::string` holds bytes, so a byte string that is not valid UTF-8 has no counterpart here. CUPS reads `key.c_str()`, `value.c_str()` and `jobName.c_str()` (Cups.cpp:96, Cups.cpp:100) only up to the first NUL. The log records the whole string, not the C string CUPS reads. So with a key such as `"a\0b"`, the names `cupsCreateJob` actually sees can be shorter than the logged ones, or even repeated, although `InKeyOrder` states that the logged names are distinct.
- C++ exceptions are not modelled. `std::bad_alloc` can be thrown by `new` and by the growth of `std::string`, `std::vector` and `std::map`. One such exception breaks the cancel promise: `new int(JOB_ID)` at Cups.cpp:128 runs after `cupsCreateJob` has succeeded and before the guard exists. If it throws, the created job is never cancelled. Every other allocation happens either before the job exists or after the guard owns it.
- Blocking I/O, timeouts and concurrent use are not modelled.
- The getters `getName`, `getInstance`, `isDefault` and `getOptions` are functions without contracts of their own. The constructor's contract states what they return.
