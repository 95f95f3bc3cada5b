/** The POSIX backend on a Linux target: scheduling-policy codes, the mapping
    of a portable priority onto `sched_priority`, the `sched_attr` record for
    SCHED_DEADLINE, and the wrappers that hand these to the operating system.
    The operating system is a `Kernel` object: it answers each request with a
    status fixed in advance and keeps a log of the write requests it got, so
    that "no call was made" is a statement about that log. */
module Unix {
  import opened Base
  import opened Lib

  // ---------------------------------------------------------------------
  // Scheduling policies and their `sched_setscheduler` codes

  datatype RealtimeThreadSchedulePolicy = Fifo | RoundRobin | Deadline

  datatype NormalThreadSchedulePolicy = Idle | Batch | Other | Normal

  datatype ThreadSchedulePolicy =
    | Normal(normal: NormalThreadSchedulePolicy)
    | Realtime(realtime: RealtimeThreadSchedulePolicy)

  const NORMAL_POLICY := ThreadSchedulePolicy.Normal(NormalThreadSchedulePolicy.Normal)
  const OTHER_POLICY := ThreadSchedulePolicy.Normal(NormalThreadSchedulePolicy.Other)
  const DEADLINE_POLICY := Realtime(Deadline)

  /** The codes `ThreadSchedulePolicy::from_posix` accepts (SCHED_OTHER 0,
      SCHED_FIFO 1, SCHED_RR 2, SCHED_BATCH 3, SCHED_IDLE 5, SCHED_DEADLINE 6). */
  predicate IsPolicyCode(c: int)
  {
    c == 0 || c == 1 || c == 2 || c == 3 || c == 5 || c == 6
  }

  const PARSE_POLICY_MSG := "Can't parse schedule policy from posix"

  function RealtimeToPosix(p: RealtimeThreadSchedulePolicy): (c: int32)
    ensures IsPolicyCode(c) && 1 <= c
    ensures c == 6 <==> p == Deadline
  {
    match p
    case Fifo => 1
    case RoundRobin => 2
    case Deadline => 6
  }

  function NormalToPosix(p: NormalThreadSchedulePolicy): (c: int32)
    ensures IsPolicyCode(c) && c !in {1, 2, 6}
    ensures c == 0 <==> p == Other || p == NormalThreadSchedulePolicy.Normal
  {
    match p
    case Idle => 5
    case Batch => 3
    case Other | Normal => 0
  }

  /** The code of a policy; realtime policies and only they get 1, 2 or 6. */
  function PolicyToPosix(policy: ThreadSchedulePolicy): (c: int32)
    ensures IsPolicyCode(c)
    ensures policy.Realtime? <==> c in {1, 2, 6}
  {
    match policy
    case Normal(p) => NormalToPosix(p)
    case Realtime(p) => RealtimeToPosix(p)
  }

  /** Decoding a code read back from the operating system: exactly the six
      codes are understood, and code 0 always comes back as `Normal(Normal)`. */
  function PolicyFromPosix(c: int32): (r: Result<ThreadSchedulePolicy, Error>)
    ensures r.Ok? <==> IsPolicyCode(c)
    ensures r.Err? ==> r.error == Ffi(PARSE_POLICY_MSG)
    ensures r.Ok? ==> r.value != OTHER_POLICY
  {
    match c
    case 0 => Ok(NORMAL_POLICY)
    case 3 => Ok(ThreadSchedulePolicy.Normal(Batch))
    case 5 => Ok(ThreadSchedulePolicy.Normal(Idle))
    case 1 => Ok(Realtime(Fifo))
    case 2 => Ok(Realtime(RoundRobin))
    case 6 => Ok(Realtime(Deadline))
    case _ => Err(Ffi(PARSE_POLICY_MSG))
  }

  /** The fixed encoding of every policy. */
  lemma PolicyEncoding()
    ensures PolicyToPosix(Realtime(Fifo)) == 1
    ensures PolicyToPosix(Realtime(RoundRobin)) == 2
    ensures PolicyToPosix(Realtime(Deadline)) == 6
    ensures PolicyToPosix(ThreadSchedulePolicy.Normal(Idle)) == 5
    ensures PolicyToPosix(ThreadSchedulePolicy.Normal(Batch)) == 3
    ensures PolicyToPosix(OTHER_POLICY) == 0 && PolicyToPosix(NORMAL_POLICY) == 0
  {
  }

  /** Encoding then decoding gives the policy back, except that `Other`,
      which shares code 0, comes back as `Normal`. */
  lemma PolicyRoundTrip(policy: ThreadSchedulePolicy)
    ensures PolicyFromPosix(PolicyToPosix(policy))
         == Ok(if policy == OTHER_POLICY then NORMAL_POLICY else policy)
  {
  }

  /** Decoding then encoding gives the code back. */
  lemma CodeRoundTrip(c: int32)
    requires PolicyFromPosix(c).Ok?
    ensures PolicyToPosix(PolicyFromPosix(c).value) == c
  {
  }

  /** The only two policies sharing a code are `Other` and `Normal`. */
  lemma PolicyCodesCollideOnlyOnNormal(a: ThreadSchedulePolicy, b: ThreadSchedulePolicy)
    requires a != b && PolicyToPosix(a) == PolicyToPosix(b)
    ensures {a, b} == {OTHER_POLICY, NORMAL_POLICY}
  {
  }

  // ---------------------------------------------------------------------
  // Portable priority <-> `sched_priority`

  /** The `sched_param` proxy; only `sched_priority` is carried. */
  datatype ScheduleParams = ScheduleParams(sched_priority: int32)

  /** 100 ms in nanoseconds: what `Min` and `Max` stand for under SCHED_DEADLINE. */
  const DEADLINE_SLICE: int32 := 100 * 1_000_000

  const OUT_OF_RANGE_MSG := "The value is out of range [0; 99]"
  const NORMAL_ONLY_ZERO_MSG := "The value can be only 0 for normal scheduling policy"

  /** Whether `to_posix` refuses a `Specific(p)` under a policy: realtime
      policies other than Deadline take 1..99, normal ones only 0. */
  predicate RejectsSpecific(p: uint32, policy: ThreadSchedulePolicy)
  {
    policy != DEADLINE_POLICY &&
    ((policy.Realtime? && (p == 0 || p > 99)) || (policy.Normal? && p != 0))
  }

  /** `ThreadPriority::to_posix`. Only a `Specific` value can be refused, and
      then always with a `Priority` error; a normal policy always yields 0, a
      Fifo or RoundRobin policy a value in 1..99, and a `Specific` payload
      that is accepted is passed on bit for bit (`u32` read as `c_int`). */
  function PriorityToPosix(priority: ThreadPriority, policy: ThreadSchedulePolicy): (r: Result<int32, Error>)
    ensures r.Err? <==> priority.Specific? && RejectsSpecific(priority.value, policy)
    ensures r.Err? ==>
              r.error == Priority(if policy.Realtime? then OUT_OF_RANGE_MSG else NORMAL_ONLY_ZERO_MSG)
    ensures r.Ok? && policy.Normal? ==> r.value == 0
    ensures r.Ok? && policy.Realtime? && policy != DEADLINE_POLICY ==> 1 <= r.value <= 99
    ensures r.Ok? && priority.Specific? ==> AsU32(r.value) == priority.value
  {
    var ret: Result<uint32, Error> :=
      match priority
      case Min =>
        if policy == DEADLINE_POLICY then Ok(DEADLINE_SLICE)
        else if policy.Realtime? then Ok(1)
        else Ok(0)
      case Specific(p) =>
        if policy == DEADLINE_POLICY then Ok(p)
        else if policy.Realtime? && (p == 0 || p > 99) then Err(Priority(OUT_OF_RANGE_MSG))
        else if policy.Normal? && p != 0 then Err(Priority(NORMAL_ONLY_ZERO_MSG))
        else Ok(p)
      case Max =>
        if policy == DEADLINE_POLICY then Ok(DEADLINE_SLICE)
        else if policy.Realtime? then Ok(99)
        else Ok(0);
    match ret
    case Ok(p) => Ok(AsI32(p))
    case Err(e) => Err(e)
  }

  /** `ThreadPriority::from_posix`: the raw value, read as `u32`, becomes a
      `Specific` payload. */
  function PriorityFromPosix(params: ScheduleParams): (p: ThreadPriority)
    ensures p.Specific? && AsI32(p.value) == params.sched_priority
    ensures params.sched_priority >= 0 ==> p == Specific(params.sched_priority)
  {
    Specific(AsU32(params.sched_priority))
  }

  /** What `Min` and `Max` become under each policy. */
  lemma MinMaxValues(policy: ThreadSchedulePolicy)
    ensures PriorityToPosix(Min, policy) ==
      Ok(if policy == DEADLINE_POLICY then 100_000_000 else if policy.Realtime? then 1 else 0)
    ensures PriorityToPosix(Max, policy) ==
      Ok(if policy == DEADLINE_POLICY then 100_000_000 else if policy.Realtime? then 99 else 0)
  {
  }

  /** Which `Specific` values each kind of policy accepts, and that an
      accepted value below 2^31 reaches the operating system unchanged. */
  lemma SpecificAcceptance(p: uint32, policy: ThreadSchedulePolicy)
    ensures policy.Realtime? && policy != DEADLINE_POLICY ==>
      (PriorityToPosix(Specific(p), policy).Ok? <==> 1 <= p <= 99)
    ensures policy.Normal? ==> (PriorityToPosix(Specific(p), policy).Ok? <==> p == 0)
    ensures policy == DEADLINE_POLICY ==> PriorityToPosix(Specific(p), policy).Ok?
    ensures PriorityToPosix(Specific(p), policy).Ok? && p < TWO_31 ==>
      PriorityToPosix(Specific(p), policy).value == p
  {
  }

  /** Reading back the value `to_posix` produced gives the same `Specific`. */
  lemma SpecificReadBack(p: uint32, policy: ThreadSchedulePolicy)
    requires PriorityToPosix(Specific(p), policy).Ok?
    ensures PriorityFromPosix(ScheduleParams(PriorityToPosix(Specific(p), policy).value)) == Specific(p)
  {
  }

  /** The documented [0; 100] range is not what decides: a `u8` above 99 is
      refused by Fifo and RoundRobin but accepted by Deadline. */
  lemma DocumentedRangeNotEnforced(p: uint8)
    requires 100 <= p
    ensures PriorityToPosix(Specific(p), Realtime(Fifo)) == Err(Priority(OUT_OF_RANGE_MSG))
    ensures PriorityToPosix(Specific(p), DEADLINE_POLICY) == Ok(p)
  {
  }

  // ---------------------------------------------------------------------
  // The `sched_attr` record and its `#[repr(C)]` size

  /** The kernel's `struct sched_attr`, field for field. */
  datatype SchedAttr = SchedAttr(
    size: uint32,
    sched_policy: uint32,
    sched_flags: uint64,
    sched_nice: int32,
    sched_priority: uint32,
    sched_runtime: uint64,
    sched_deadline: uint64,
    sched_period: uint64,
    sched_util_min: uint32,
    sched_util_max: uint32)

  /** `SchedAttr::default()`. */
  const DEFAULT_SCHED_ATTR := SchedAttr(0, 0, 0, 0, 0, 0, 0, 0, 0, 0)

  /** The alignment of a field of a `#[repr(C)]` struct of fixed-width
      integers: its width in bytes, since such an integer is aligned to its
      own width. */
  type Width = x: nat | x > 0 witness 1

  /** The fields of a `#[repr(C)]` struct, in declaration order. */
  datatype Fields = End | Field(width: Width, rest: Fields)

  /** The fields of `SchedAttr`: `u32`, `u32`, `u64`, `i32`, `u32`, three
      `u64` and two `u32`. */
  const SCHED_ATTR_LAYOUT: Fields :=
    Field(4, Field(4, Field(8, Field(4, Field(4,
    Field(8, Field(8, Field(8, Field(4, Field(4, End))))))))))

  /** The first multiple of `align` at or after `offset`. */
  function AlignUp(offset: nat, align: Width): (r: nat)
    ensures offset <= r < offset + align
  {
    offset + (align - offset % align) % align
  }

  /** An offset that is already aligned is left where it is. */
  lemma AlignUpAligned(offset: nat, align: Width)
    requires offset % align == 0
    ensures AlignUp(offset, align) == offset
  {
  }

  /** A multiple of `align` leaves no remainder. */
  lemma {:induction false} MultipleIsAligned(n: nat, align: Width)
    ensures (align * n) % align == 0
  {
    var k := align * n;
    var q := k / align;
    var d := n - q;
    assert k == align * q + k % align;
    assert align * d == k % align;
  }

  /** `AlignUp` lands on a multiple of the alignment. */
  lemma AlignUpIsAligned(offset: nat, align: Width)
    ensures AlignUp(offset, align) % align == 0
  {
    var m := offset % align;
    var q := offset / align;
    assert offset == align * q + m;
    if m == 0 {
      assert AlignUp(offset, align) == offset;
    } else {
      assert (align - m) % align == align - m;
      assert AlignUp(offset, align) == align * (q + 1);
      MultipleIsAligned(q + 1, align);
    }
  }

  function TotalSize(fields: Fields): nat
  {
    match fields
    case End => 0
    case Field(w, rest) => w + TotalSize(rest)
  }

  /** The largest alignment of the fields (1 for no field): at least the
      first field's and the rest's, and equal to one of them. */
  function MaxAlign(fields: Fields): (a: Width)
    ensures fields.End? ==> a == 1
    ensures fields.Field? ==> fields.width <= a && MaxAlign(fields.rest) <= a
    ensures fields.Field? ==> a == fields.width || a == MaxAlign(fields.rest)
  {
    match fields
    case End => 1
    case Field(w, rest) => var m := MaxAlign(rest); if w > m then w else m
  }

  /** The end of the last field when the fields are laid out in order from
      `offset`, each at the next offset its alignment allows: no field
      overlaps another, so the end is at least `offset` plus their sizes. */
  function LayoutEnd(fields: Fields, offset: nat): (end: nat)
    ensures end >= offset + TotalSize(fields)
  {
    match fields
    case End => offset
    case Field(w, rest) => LayoutEnd(rest, AlignUp(offset, w) + w)
  }

  /** `std::mem::size_of` of such a struct: the end of its last field rounded
      up to its largest alignment, never less than its fields need. */
  function SizeOf(fields: Fields): (n: nat)
    ensures n >= TotalSize(fields)
  {
    AlignUp(LayoutEnd(fields, 0), MaxAlign(fields))
  }

  /** Whether every field, laid end to end from `offset`, already starts at
      a multiple of its alignment, so that no padding goes in. */
  predicate Packed(fields: Fields, offset: nat)
  {
    match fields
    case End => true
    case Field(w, rest) => offset % w == 0 && Packed(rest, offset + w)
  }

  /** A layout that needs no padding ends exactly at `offset` plus the sizes. */
  lemma {:induction false} PackedLayout(fields: Fields, offset: nat)
    requires Packed(fields, offset)
    ensures LayoutEnd(fields, offset) == offset + TotalSize(fields)
  {
    match fields
    case End =>
    case Field(w, rest) =>
      AlignUpAligned(offset, w);
      PackedLayout(rest, offset + w);
  }

  /** A struct that needs no padding between its fields, and whose fields
      add up to a multiple of its alignment, is exactly as large as its
      fields. */
  lemma PackedSize(fields: Fields)
    requires Packed(fields, 0) && TotalSize(fields) % MaxAlign(fields) == 0
    ensures SizeOf(fields) == TotalSize(fields)
  {
    PackedLayout(fields, 0);
    AlignUpAligned(TotalSize(fields), MaxAlign(fields));
  }

  /** `SchedAttr` is 56 bytes, the kernel's SCHED_ATTR_SIZE_VER1. */
  lemma SchedAttrSize()
    ensures SizeOf(SCHED_ATTR_LAYOUT) == 56
  {
    SchedAttrPacked();
    SchedAttrFieldBytes();
    SchedAttrAlign();
    PackedSize(SCHED_ATTR_LAYOUT);
  }

  /** The fields of `SchedAttr` start at offsets 0, 4, 8, 16, 20, 24, 32,
      40, 48 and 52, each a multiple of its width. */
  lemma SchedAttrPacked()
    ensures Packed(SCHED_ATTR_LAYOUT, 0)
  {
  }

  /** The fields of `SchedAttr` take 56 bytes together. */
  lemma SchedAttrFieldBytes()
    ensures TotalSize(SCHED_ATTR_LAYOUT) == 56
  {
  }

  /** The widest field of `SchedAttr`, a `u64`, sets its alignment. */
  lemma SchedAttrAlign()
    ensures MaxAlign(SCHED_ATTR_LAYOUT) == 8
  {
  }

  /** The record `set_thread_schedule_policy` submits for SCHED_DEADLINE:
      its own size (56 bytes, as `SchedAttrSize` shows), policy 6, the one
      priority value in runtime, deadline and period (sign-extended to
      `u64`), and every other field zero. */
  function DeadlineAttr(sched_priority: int32): (a: SchedAttr)
    ensures a.size == 56 && a.sched_policy == 6
    ensures a.sched_runtime == a.sched_deadline == a.sched_period == AsU64(sched_priority)
    ensures sched_priority >= 0 ==> a.sched_runtime == sched_priority
    ensures a.sched_flags == 0 && a.sched_nice == 0 && a.sched_priority == 0
    ensures a.sched_util_min == 0 && a.sched_util_max == 0
  {
    SchedAttrSize();
    DEFAULT_SCHED_ATTR.(
      size := AsU32(SizeOf(SCHED_ATTR_LAYOUT)),
      sched_policy := AsU32(PolicyToPosix(DEADLINE_POLICY)),
      sched_runtime := AsU64(sched_priority),
      sched_deadline := AsU64(sched_priority),
      sched_period := AsU64(sched_priority))
  }

  // ---------------------------------------------------------------------
  // The operating system

  /** `pthread_t`, an `unsigned long` on 64-bit Linux. */
  type ThreadId = uint64

  /** A write request: `pthread_setschedparam(thread, policy, &param)` or
      `syscall(SYS_sched_setattr, tid, &attr, flags)`. */
  datatype Request =
    | SetSchedParam(thread: ThreadId, policy: int32, param: ScheduleParams)
    | SetAttr(tid: int32, attr: SchedAttr, flags: uint32)

  /** What `pthread_getschedparam` reports: its status and, on success, the
      policy code and the parameters it wrote through the out-pointers. */
  datatype SchedParamReading = SchedParamReading(status: int32, policy: int32, param: ScheduleParams)

  class Kernel {
    /** The write requests made so far, oldest first. */
    var issued: seq<Request>
    /** Status `pthread_setschedparam` returns for given arguments. */
    const setSchedParamStatus: (ThreadId, int32, ScheduleParams) -> int32
    /** Return value of the `sched_setattr` system call (a `c_long`). */
    const setAttrReturn: (int32, SchedAttr, uint32) -> int64
    /** What `pthread_getschedparam` reports for each thread. */
    const schedParamOf: ThreadId -> SchedParamReading
    /** What `sched_getscheduler(getpid())` returns. */
    const processScheduler: int32

    constructor (setSchedParamStatus: (ThreadId, int32, ScheduleParams) -> int32,
                 setAttrReturn: (int32, SchedAttr, uint32) -> int64,
                 schedParamOf: ThreadId -> SchedParamReading,
                 processScheduler: int32)
      ensures issued == []
      ensures this.setSchedParamStatus == setSchedParamStatus && this.setAttrReturn == setAttrReturn
      ensures this.schedParamOf == schedParamOf && this.processScheduler == processScheduler
    {
      this.setSchedParamStatus := setSchedParamStatus;
      this.setAttrReturn := setAttrReturn;
      this.schedParamOf := schedParamOf;
      this.processScheduler := processScheduler;
      issued := [];
    }

    /** The status a write request draws, as the `i32` the wrapper matches on. */
    function Status(req: Request): (s: int32)
      reads this
      ensures req.SetSchedParam? ==> s == setSchedParamStatus(req.thread, req.policy, req.param)
      ensures req.SetAttr? ==>
        var ret := setAttrReturn(req.tid, req.attr, req.flags);
        (ret - s) % TWO_32 == 0 && (-TWO_31 <= ret < TWO_31 ==> s == ret)
    {
      match req
      case SetSchedParam(thread, policy, param) => setSchedParamStatus(thread, policy, param)
      case SetAttr(tid, attr, flags) => AsI32(setAttrReturn(tid, attr, flags))
    }

    method PthreadSetschedparam(thread: ThreadId, policy: int32, param: ScheduleParams) returns (ret: int32)
      modifies this
      ensures issued == old(issued) + [SetSchedParam(thread, policy, param)]
      ensures ret == setSchedParamStatus(thread, policy, param)
    {
      issued := issued + [SetSchedParam(thread, policy, param)];
      ret := setSchedParamStatus(thread, policy, param);
    }

    method SyscallSchedSetattr(tid: int32, attr: SchedAttr, flags: uint32) returns (ret: int64)
      modifies this
      ensures issued == old(issued) + [SetAttr(tid, attr, flags)]
      ensures ret == setAttrReturn(tid, attr, flags)
    {
      issued := issued + [SetAttr(tid, attr, flags)];
      ret := setAttrReturn(tid, attr, flags);
    }

    method PthreadGetschedparam(thread: ThreadId) returns (ret: int32, policy: int32, param: ScheduleParams)
      ensures SchedParamReading(ret, policy, param) == schedParamOf(thread)
    {
      var reading := schedParamOf(thread);
      ret, policy, param := reading.status, reading.policy, reading.param;
    }
  }

  // ---------------------------------------------------------------------
  // The wrappers

  /** The final `match ret { 0 => Ok(()), e => Err(Error::OS(e)) }`. */
  function StatusResult(ret: int32): (r: Result<(), Error>)
    ensures r.Ok? <==> ret == 0
    ensures r.Err? ==> r.error == OS(ret)
  {
    if ret == 0 then Ok(()) else Err(OS(ret))
  }

  /** The one request `set_thread_schedule_policy` makes: SCHED_DEADLINE goes
      through `sched_setattr` for the thread id read as a `pid_t`, with flags
      0; every other policy through `pthread_setschedparam` with its code. */
  function ScheduleRequest(native: ThreadId, policy: ThreadSchedulePolicy, params: ScheduleParams): (req: Request)
    ensures req.SetAttr? <==> policy == DEADLINE_POLICY
    ensures req.SetAttr? ==>
      req.tid == AsI32(native) && req.flags == 0 && req.attr == DeadlineAttr(params.sched_priority)
    ensures req.SetSchedParam? ==>
      req.thread == native && req.policy == PolicyToPosix(policy) && req.param == params
  {
    if policy == DEADLINE_POLICY then
      SetAttr(AsI32(native), DeadlineAttr(params.sched_priority), 0)
    else
      SetSchedParam(native, PolicyToPosix(policy), params)
  }

  /** `set_thread_schedule_policy`: issues exactly the request above and
      reports its status. */
  method SetThreadSchedulePolicy(k: Kernel, native: ThreadId, policy: ThreadSchedulePolicy, params: ScheduleParams)
    returns (r: Result<(), Error>)
    modifies k
    ensures k.issued == old(k.issued) + [ScheduleRequest(native, policy, params)]
    ensures r == StatusResult(k.Status(ScheduleRequest(native, policy, params)))
  {
    var ret: int32;
    if policy == DEADLINE_POLICY {
      var tid := AsI32(native);
      var attr := DeadlineAttr(params.sched_priority);
      var raw := k.SyscallSchedSetattr(tid, attr, 0);
      ret := AsI32(raw);
    } else {
      ret := k.PthreadSetschedparam(native, PolicyToPosix(policy), params);
    }
    r := StatusResult(ret);
  }

  /** `set_thread_priority_and_policy`: a priority `to_posix` refuses is
      reported as that error before any request reaches the kernel;
      otherwise the converted value is submitted under the policy. */
  method SetThreadPriorityAndPolicy(k: Kernel, native: ThreadId, priority: ThreadPriority, policy: ThreadSchedulePolicy)
    returns (r: Result<(), Error>)
    modifies k
    ensures PriorityToPosix(priority, policy).Err? ==>
      r == Err(PriorityToPosix(priority, policy).error) && k.issued == old(k.issued)
    ensures PriorityToPosix(priority, policy).Ok? ==>
      var req := ScheduleRequest(native, policy, ScheduleParams(PriorityToPosix(priority, policy).value));
      k.issued == old(k.issued) + [req] && r == StatusResult(k.Status(req))
  {
    var converted := PriorityToPosix(priority, policy);
    if converted.Err? {
      return Err(converted.error);
    }
    var params := ScheduleParams(converted.value);
    r := SetThreadSchedulePolicy(k, native, policy, params);
  }

  /** `set_current_thread_priority`: always the Normal policy, so a non-zero
      `Specific` is refused without a call, and anything else becomes
      `pthread_setschedparam(current, 0, {0})`. */
  method SetCurrentThreadPriority(k: Kernel, current: ThreadId, priority: ThreadPriority)
    returns (r: Result<(), Error>)
    modifies k
    ensures priority.Specific? && priority.value != 0 ==>
      r == Err(Priority(NORMAL_ONLY_ZERO_MSG)) && k.issued == old(k.issued)
    ensures !(priority.Specific? && priority.value != 0) ==>
      k.issued == old(k.issued) + [SetSchedParam(current, 0, ScheduleParams(0))]
      && r == StatusResult(k.setSchedParamStatus(current, 0, ScheduleParams(0)))
  {
    r := SetThreadPriorityAndPolicy(k, current, priority, NORMAL_POLICY);
  }

  /** `ThreadPriority::set_for_current` (lib.rs) on a POSIX build: exactly
      `set_current_thread_priority`. */
  method SetForCurrent(k: Kernel, current: ThreadId, priority: ThreadPriority)
    returns (r: Result<(), Error>)
    modifies k
    ensures priority.Specific? && priority.value != 0 ==>
      r == Err(Priority(NORMAL_ONLY_ZERO_MSG)) && k.issued == old(k.issued)
    ensures !(priority.Specific? && priority.value != 0) ==>
      k.issued == old(k.issued) + [SetSchedParam(current, 0, ScheduleParams(0))]
      && r == StatusResult(k.setSchedParamStatus(current, 0, ScheduleParams(0)))
  {
    r := SetCurrentThreadPriority(k, current, priority);
  }

  /** `thread_schedule_policy_param`: a failing `pthread_getschedparam` is an
      `OS` error; otherwise the policy code must decode (else `Ffi`) and the
      parameters are returned as read. */
  method ThreadSchedulePolicyParam(k: Kernel, native: ThreadId)
    returns (r: Result<(ThreadSchedulePolicy, ScheduleParams), Error>)
    ensures k.schedParamOf(native).status != 0 ==> r == Err(OS(k.schedParamOf(native).status))
    ensures k.schedParamOf(native).status == 0 ==>
      (r.Ok? <==> IsPolicyCode(k.schedParamOf(native).policy))
    ensures k.schedParamOf(native).status == 0 && r.Err? ==> r.error == Ffi(PARSE_POLICY_MSG)
    ensures r.Ok? ==>
      PolicyToPosix(r.value.0) == k.schedParamOf(native).policy && r.value.1 == k.schedParamOf(native).param
    ensures r.Ok? ==> r.value.0 == PolicyFromPosix(k.schedParamOf(native).policy).value
  {
    var policy: int32 := 0;
    var params := ScheduleParams(0);
    var ret;
    ret, policy, params := k.PthreadGetschedparam(native);
    if ret != 0 {
      return Err(OS(ret));
    }
    var decoded := PolicyFromPosix(policy);
    if decoded.Err? {
      return Err(decoded.error);
    }
    CodeRoundTrip(policy);
    r := Ok((decoded.value, params));
  }

  /** `thread_schedule_policy`: decodes what `sched_getscheduler` returned;
      its failure value -1 is not a policy code, so a failure reads as `Ffi`. */
  method ThreadSchedulePolicyOfProcess(k: Kernel) returns (r: Result<ThreadSchedulePolicy, Error>)
    ensures r.Ok? <==> IsPolicyCode(k.processScheduler)
    ensures r.Ok? ==> PolicyToPosix(r.value) == k.processScheduler && r.value != OTHER_POLICY
    ensures k.processScheduler == -1 ==> r == Err(Ffi(PARSE_POLICY_MSG))
  {
    r := PolicyFromPosix(k.processScheduler);
    if r.Ok? {
      CodeRoundTrip(k.processScheduler);
    }
  }

  /** `thread_priority` for the calling thread `current`: the value read by
      `thread_schedule_policy_param`, as a `Specific` priority. */
  method CurrentThreadPriority(k: Kernel, current: ThreadId) returns (r: Result<ThreadPriority, Error>)
    ensures k.schedParamOf(current).status != 0 ==> r == Err(OS(k.schedParamOf(current).status))
    ensures k.schedParamOf(current).status == 0 && IsPolicyCode(k.schedParamOf(current).policy) ==>
      r == Ok(PriorityFromPosix(k.schedParamOf(current).param))
    ensures k.schedParamOf(current).status == 0 && !IsPolicyCode(k.schedParamOf(current).policy) ==>
      r == Err(Ffi(PARSE_POLICY_MSG))
  {
    var read := ThreadSchedulePolicyParam(k, current);
    match read
    case Err(e) =>
      r := Err(e);
    case Ok(pair) =>
      r := Ok(PriorityFromPosix(pair.1));
  }
}
