# thread-priority: the priority and scheduling-policy mapping, in Dafny

This project models the value-mapping core of the Rust crate
`thread-priority`, together with the thin wrappers that pass its results to
the operating system. It covers two backends.

- **POSIX (Linux).** The scheduling policies and their codes for
  `sched_setscheduler`, in both directions. The mapping of a portable
  `ThreadPriority` onto `sched_priority` under a given policy, and back. The
  `sched_attr` record built for SCHED_DEADLINE, including its `#[repr(C)]`
  size. The control flow of `set_thread_priority_and_policy`,
  `set_thread_schedule_policy`, `thread_schedule_policy_param` and the
  getters built on them.
- **Windows.** The nine `SetThreadPriority` levels and `Min`/`Max`. The
  bucketing of a `Crossplatform` percentage onto those levels. The strict
  membership test that `Os` values and values read back from
  `GetThreadPriority` go through. The setter and getter wrappers.
- **Shared.** The crate's `Error` type, and the POSIX `ThreadPriority` with
  its derived total order.

Files:

- `base.dfy` holds `Result`, the fixed-width integer types, and Rust's `as`
  casts, written out as modular reduction.
- `lib.dfy` holds `Error`, `ThreadPriority` and the derived `Ord`.
- `unix.dfy` holds the POSIX backend. The operating system is a `Kernel`
  object that answers each call with a value fixed when it is built. It also
  keeps a log, `issued`, of the write requests it received. "No OS call was
  made" is therefore `k.issued == old(k.issued)`.
- `windows.dfy` holds the Windows backend. The operating system is a `WinApi`
  value holding the answers of `SetThreadPriority`, `GetThreadPriority`,
  `GetLastError` and `GetCurrentThread`. These wrappers have no local state.

Decisions where the code is to be read carefully:

- The crate is not internally consistent, so each file is modelled as
  written.
  - `src/lib.rs` declares `Min | Specific(u8) | Max`. The POSIX backend uses
    `Specific`, and `from_posix` builds it from a `u32`, so `Lib.ThreadPriority`
    carries a `u32`. Every `u8` fits in it.
  - `src/windows.rs` instead matches on `Crossplatform(ThreadPriorityValue(u8))`
    and `Os(ThreadPriorityOsValue(u32))`. `Windows.ThreadPriority` has those
    variants.
- `ThreadPriority::to_posix` builds a `u32` and casts it to `c_int`.
  `from_posix` casts a `c_int` to `u32`. Both casts are modelled bit for bit.
  An accepted Deadline value of 2^31 or more therefore reaches the OS as a
  negative `c_int`, and `sched_attr` sign-extends it to `u64`.
- The winbase constants are the values Microsoft documents for
  `SetThreadPriority`: IDLE −15, LOWEST −2, BELOW_NORMAL −1, NORMAL 0,
  ABOVE_NORMAL 1, HIGHEST 2, TIME_CRITICAL 15, background begin 0x10000 and
  background end 0x20000. Negative values are stored as their 32-bit two's
  complement `DWORD`. THREAD_PRIORITY_ERROR_RETURN is MAXLONG, 0x7FFFFFFF.
- The code has no niceness rescaling, no separate SCHED_DEADLINE runtime,
  deadline and period values, and no dedicated error for a priority outside
  the policy's range. For SCHED_DEADLINE it puts the one `sched_priority`
  value in runtime, deadline and period, and it reports every refusal as
  `Error::Priority`.
- `SchedAttr` has no size recorded anywhere in the crate beyond
  `size_of::<SchedAttr>()`. The model computes that size from the C layout
  rules and proves it is 56 bytes, the kernel's SCHED_ATTR_SIZE_VER1.

## Model

| member | source | states |
|---|---|---|
| Base.AsU32 | src/unix.rs:214 | `as u32` keeps an in-range value and otherwise yields the only congruent value modulo 2^32 |
| Base.AsI32 | src/unix.rs:207 | `as c_int` keeps a value that fits in `i32` and otherwise yields the only congruent value in `i32` |
| Base.AsU64 | src/unix.rs:296-298 | `as u64` keeps a non-negative value and sign-extends a negative `i32` (2^64 + x) |
| Base.CastRoundTrips | src/unix.rs:207-215 | `i32 -> u32 -> i32` and `u32 -> i32 -> u32` both restore the original value |
| Lib.CompareInt | src/lib.rs:39 | comparison of payloads: `Less` iff a < b, `Equal` iff a == b |
| Lib.Cmp | src/lib.rs:39-52 | derived `Ord::cmp`: `Equal` iff structurally equal, `Min` below every other value, `Max` above every other value |
| Lib.Lt | src/lib.rs:39 | the derived `<` holds iff `a`'s variant comes first, or both are `Specific` with a smaller payload on the left |
| Lib.Le | src/lib.rs:39 | the derived `<=` holds iff `<` holds or the two are equal |
| Lib.MinIsLeast | src/lib.rs:39-52 | `Min` is strictly below every other priority |
| Lib.MaxIsGreatest | src/lib.rs:39-52 | `Max` is strictly above every other priority |
| Lib.SpecificOrder | src/lib.rs:39-45 | `Specific(a) <= Specific(b)` iff a <= b, and likewise for < |
| Lib.TotalOrder | src/lib.rs:39 | the order is reflexive, transitive and total; `<=` both ways iff equal; `cmp(a,b)` is `Less` iff `cmp(b,a)` is `Greater` |
| Lib.RangeNotEnforced | src/lib.rs:43-45 | every `u8` is kept as given as a `Specific` payload; one above 100 is not clamped but orders above `Specific(100)` and below `Max` |
| Unix.RealtimeToPosix | src/unix.rs:94-101 | Fifo, RoundRobin and Deadline get policy codes of at least 1, and only Deadline gets 6 |
| Unix.NormalToPosix | src/unix.rs:117-123 | normal policies get codes outside {1, 2, 6}, and exactly `Other` and `Normal` get 0 |
| Unix.PolicyToPosix | src/unix.rs:135-140 | every policy gets an accepted code; a policy is realtime iff its code is 1, 2 or 6 |
| Unix.PolicyFromPosix | src/unix.rs:142-165 | exactly the codes 0, 1, 2, 3, 5 and 6 decode; every other code is `Ffi("Can't parse schedule policy from posix")`; `Other` is never produced |
| Unix.PolicyEncoding | src/unix.rs:94-140 | the fixed table Fifo 1, RoundRobin 2, Deadline 6, Idle 5, Batch 3, Other 0, Normal 0 |
| Unix.PolicyRoundTrip | src/unix.rs:94-165 | decoding a policy's code gives the policy back, except `Other`, which comes back as `Normal` |
| Unix.CodeRoundTrip | src/unix.rs:94-165 | encoding a decoded code gives the code back |
| Unix.PolicyCodesCollideOnlyOnNormal | src/unix.rs:121 | two distinct policies share a code only if they are `Other` and `Normal` |
| Unix.PriorityToPosix | src/unix.rs:171-208 | fails iff a `Specific` is outside 1..99 for Fifo/RoundRobin or non-zero for a normal policy, with the matching `Priority` message; normal policies give 0; Fifo/RoundRobin give 1..99; an accepted `Specific` payload is passed on bit for bit |
| Unix.PriorityFromPosix | src/unix.rs:213-215 | the raw value becomes a `Specific` whose payload reads back as that value, and is unchanged when non-negative |
| Unix.MinMaxValues | src/unix.rs:173-205 | `Min` gives 100 000 000 for Deadline, 1 for other realtime and 0 for normal policies; `Max` gives 100 000 000, 99 and 0 |
| Unix.SpecificAcceptance | src/unix.rs:183-195 | Fifo/RoundRobin accept exactly 1..99, normal policies exactly 0, and Deadline every value; an accepted value below 2^31 is returned unchanged |
| Unix.SpecificReadBack | src/unix.rs:183-215 | `from_posix` of what `to_posix(Specific(p))` produced is `Specific(p)` |
| Unix.DocumentedRangeNotEnforced | src/unix.rs:183-191 | a `u8` of 100 or more is refused by Fifo but accepted unchanged by Deadline |
| Unix.AlignUp | src/unix.rs:19-43 | the next aligned offset is at least the offset and less than one alignment beyond it |
| Unix.MultipleIsAligned | src/unix.rs:19-43 | a multiple of an alignment leaves no remainder |
| Unix.AlignUpIsAligned | src/unix.rs:19-43 | the padded offset is a multiple of the alignment |
| Unix.AlignUpAligned | src/unix.rs:19-43 | an offset that is already aligned gets no padding |
| Unix.MaxAlign | src/unix.rs:19-43 | the struct's alignment is 1 with no field; otherwise it is at least the first field's alignment and the rest's, and equal to one of the two, so it is their maximum |
| Unix.LayoutEnd | src/unix.rs:19-43 | fields laid out in order with alignment padding end no earlier than the start plus the sum of their sizes |
| Unix.SizeOf | src/unix.rs:19-43 | `size_of` of a `repr(C)` struct is at least the sum of its field sizes |
| Unix.PackedLayout | src/unix.rs:19-43 | when no field needs padding, the last field ends exactly at the start plus the sum of the sizes |
| Unix.PackedSize | src/unix.rs:19-43 | a struct without padding whose field sizes add up to a multiple of its alignment is exactly as large as its fields |
| Unix.SchedAttrPacked | src/unix.rs:22-43 | every field of `SchedAttr` starts at a multiple of its width |
| Unix.SchedAttrFieldBytes | src/unix.rs:22-43 | the fields of `SchedAttr` take 56 bytes together |
| Unix.SchedAttrAlign | src/unix.rs:22-43 | the alignment of `SchedAttr` is 8 |
| Unix.SchedAttrSize | src/unix.rs:22-43 | `size_of::<SchedAttr>()` is 56 |
| Unix.DeadlineAttr | src/unix.rs:292-301 | the Deadline record has size 56, policy 6, the priority value (as `u64`) in runtime, deadline and period, and every other field 0 |
| Unix.Kernel.PthreadSetschedparam | src/unix.rs:310-314 | the call is logged and returns the OS's status for its arguments |
| Unix.Kernel.SyscallSchedSetattr | src/unix.rs:302-308 | the call is logged and returns the OS's `c_long` for its arguments |
| Unix.Kernel.PthreadGetschedparam | src/unix.rs:337-344 | returns the status, policy code and parameters the OS reports, without a logged write |
| Unix.Kernel.constructor | src/unix.rs:302-314 | the abstract OS behind `syscall(SYS_sched_setattr)` and `pthread_setschedparam` (and the reads at lines 262 and 340-344) starts with no request issued and answers as it is given |
| Unix.Kernel.Status | src/unix.rs:302-314 | a `pthread_setschedparam` request draws the OS's status unchanged; a `sched_setattr` request draws its `c_long` return narrowed by `as i32`, unchanged when it fits |
| Unix.StatusResult | src/unix.rs:316-319 | status 0 is `Ok(())` and any other status e is `OS(e)` |
| Unix.ScheduleRequest | src/unix.rs:287-315 | SCHED_DEADLINE, and only it, goes through `sched_setattr` with the id read as `pid_t`, the Deadline record and flags 0; every other policy goes through `pthread_setschedparam` with its code and the given parameters |
| Unix.SetThreadSchedulePolicy | src/unix.rs:280-321 | exactly one request is issued, and its status decides the result |
| Unix.SetThreadPriorityAndPolicy | src/unix.rs:234-243 | a priority `to_posix` refuses returns that error and issues no request; otherwise exactly the one request for the converted value is issued and its status is the result |
| Unix.SetCurrentThreadPriority | src/unix.rs:246-250 | under the fixed Normal policy, a non-zero `Specific` is refused without a call; anything else issues `pthread_setschedparam(current, 0, {0})` |
| Unix.SetForCurrent | src/lib.rs:56-58 | `set_for_current` behaves exactly as `set_current_thread_priority` |
| Unix.ThreadSchedulePolicyParam | src/unix.rs:333-353 | a failing read is `OS(status)`; otherwise the result is `Ok` iff the policy code decodes (else `Ffi`), and then it holds exactly the policy `from_posix` gives for that code (code 0 is `Normal(Normal)`) and the parameters as read |
| Unix.ThreadSchedulePolicyOfProcess | src/unix.rs:261-263 | the result is `Ok` iff the scheduler's answer is a policy code, then the policy of that code and never `Normal(Other)`; the failure value -1 reads as `Ffi` |
| Unix.CurrentThreadPriority | src/unix.rs:356-360 | a failing read is `OS(status)`, an unknown policy code is `Ffi`, and otherwise the read `sched_priority` as `Specific` |
| Windows.Discriminant | src/windows.rs:28-69 | every variant's `u32` value is one of the nine known constants |
| Windows.DiscriminantInjective | src/windows.rs:28-69 | two variants have the same value iff they are the same variant |
| Windows.ArgumentIsDocumentedLevel | src/windows.rs:178 | the `c_int` passed to `SetThreadPriority` is the documented level: −15, −2, −1, 0, 1, 2, 15, 0x10000 or 0x20000 |
| Windows.CrossplatformLevel | src/windows.rs:77-86 | a percentage maps to a level iff it is in 0..99 outside 20, 40, 60 and 80, and never to a background mode; otherwise `Priority("The value is out of range [0; 99].")` |
| Windows.DecodeConstant | src/windows.rs:87-101 | a value decodes iff it is a known constant, to the variant declared with it; otherwise the given error |
| Windows.TryFromThreadPriority | src/windows.rs:74-105 | `Min` is `Lowest`, `Max` is `Highest`, `Crossplatform` is exactly the bucketing (succeeding iff in a bucket), `Os` succeeds iff a known constant and then gives the variant with that value, else `Priority("The value is out of range of allowed values.")`; every failure is a `Priority` error |
| Windows.TryFromDword | src/windows.rs:111-124 | a `DWORD` decodes iff it is a known constant, to the variant with that value; otherwise `Priority("Priority couldn't be parsed")` |
| Windows.OsValueFrom | src/windows.rs:127-130 | the raw value of a variant is a known constant that decodes back to the variant |
| Windows.OsValueTryFrom | src/windows.rs:355-372 | a `u32` is accepted iff it is a known constant, then unchanged; otherwise `Err(())` |
| Windows.CrossplatformBuckets | src/windows.rs:77-86 | the bucket table 0 Idle, 1..19 Lowest, 21..39 BelowNormal, 41..59 Normal, 61..79 AboveNormal, 81..98 Highest, 99 TimeCritical; 20, 40, 60, 80 and 100 or more are errors |
| Windows.CrossplatformMonotone | src/windows.rs:77-86 | a larger accepted percentage never maps to a lower signed level |
| Windows.ConversionExamples | src/windows.rs:74-105 | `Min` Lowest, `Max` Highest, 23 BelowNormal, and the bucket edges 0, 19, 20, 40, 41, 99, 100 |
| Windows.VariantRoundTrips | src/windows.rs:87-130 | every variant survives `DWORD` decoding of its value and conversion of its `Os` value |
| Windows.DecodersAgree | src/windows.rs:355-372 | `ThreadPriorityOsValue::try_from`, the `DWORD` decoder and the `Os` branch accept the same values and agree on the result |
| Windows.SetWinapiThreadPriority | src/windows.rs:173-184 | succeeds iff `SetThreadPriority` of the variant's `c_int` is non-zero; otherwise `OS(GetLastError() as i32)` |
| Windows.SetThreadPriority | src/windows.rs:150-154 | a priority that does not convert returns the conversion's error; otherwise the converted level is set |
| Windows.SetCurrentThreadPriority | src/windows.rs:204-207 | `set_thread_priority` on the current thread's handle |
| Windows.GetThreadPriority | src/windows.rs:220-233 | the error return gives `OS(GetLastError())`; any other value gives `Os(v)` with v that value iff it is a known constant, else the parse error |
| Windows.GetCurrentThreadPriority | src/windows.rs:246-259 | the getter applied to the current thread's handle |
| Windows.ReapplyReadPriority | src/windows.rs:150-233 | a priority just read converts and passes `SetThreadPriority` the same `c_int` the getter returned, so setting it back succeeds when the OS accepts that value |
| Windows.ValidationComesFirst | src/windows.rs:150-154 | a priority that fails conversion gives the same result whatever the operating system would answer |

## Left out

- The foreign calls are not modelled as code. These are `pthread_setschedparam`,
  `pthread_getschedparam`, `sched_getscheduler`, `syscall(SYS_sched_setattr)`,
  `pthread_self`, `getpid`, `GetCurrentThread`, `SetThreadPriority`,
  `GetThreadPriority` and `GetLastError`. The model has only their answers,
  held by `Unix.Kernel` and `Windows.WinApi`. Which answer the OS gives is not
  modelled.
- `ScheduleParams::into_posix` for glibc and musl (src/unix.rs:45-70) is left
  out, because it only fills in struct layout. Only `sched_priority` is
  carried.
- `thread_native_id` and the `ThreadExt` trait (src/unix.rs:373-375,
  src/windows.rs:272-274, 374-440) are left out because they are delegation.
  The current thread's id is a parameter or a field of the OS model.
- `set_thread_priority_boost`, `set_thread_ideal_processor` and their
  `current` shorthands (src/windows.rs:289-353) are left out because they do
  no value mapping.
- `src/macos.rs` is not part of this model. `src/lib.rs` never declares that
  module, and it refers to an error variant the crate does not define.
- `tests/unix.rs` and `tests/common.rs` use API these sources do not have, so
  no property is derived from them.
- Dafny has no `cfg`. The model is a Linux build: `Deadline` and
  `SchedAttr` exist. The musl layout and non-Linux Unixes are not modelled.
- `winapi::um::winbase` is not part of this model. Its constants are taken
  from Microsoft's documentation of `SetThreadPriority`.
- `Windows.ThreadId`: a `HANDLE` is an opaque pointer. It is modelled as a
  64-bit number that is only passed on.
- `Unix.Kernel.PthreadGetschedparam`: the source passes out-pointers that the
  call writes. The model returns the three values instead, so pointer
  aliasing is not captured.
- Concurrency is not modelled. Two callers changing the same thread race
  at the OS level, and this layer has no state of its own.
