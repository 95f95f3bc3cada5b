/** The Windows backend: the nine `SetThreadPriority` levels, the mapping of
    a portable priority onto them, the strict decoding of what
    `GetThreadPriority` returns, and the two wrappers around those calls.
    The operating system is a `WinApi` value holding its answers. */
module Windows {
  import opened Base
  import Lib

  type Error = Lib.Error

  // ---------------------------------------------------------------------
  // The `winbase` constants, as the `DWORD`s the crate compares against.
  // Negative levels are stored in two's complement.

  const THREAD_MODE_BACKGROUND_BEGIN: uint32 := 0x0001_0000
  const THREAD_MODE_BACKGROUND_END: uint32 := 0x0002_0000
  const THREAD_PRIORITY_ABOVE_NORMAL: uint32 := 1
  const THREAD_PRIORITY_BELOW_NORMAL: uint32 := 0xFFFF_FFFF  // -1
  const THREAD_PRIORITY_HIGHEST: uint32 := 2
  const THREAD_PRIORITY_IDLE: uint32 := 0xFFFF_FFF1  // -15
  const THREAD_PRIORITY_LOWEST: uint32 := 0xFFFF_FFFE  // -2
  const THREAD_PRIORITY_NORMAL: uint32 := 0
  const THREAD_PRIORITY_TIME_CRITICAL: uint32 := 15
  /** MAXLONG: what `GetThreadPriority` returns when it fails. */
  const THREAD_PRIORITY_ERROR_RETURN: uint32 := 0x7FFF_FFFF

  /** Whether a `DWORD` is one of the nine priority constants. */
  predicate IsKnownConstant(v: int)
  {
    v == THREAD_MODE_BACKGROUND_BEGIN || v == THREAD_MODE_BACKGROUND_END
    || v == THREAD_PRIORITY_ABOVE_NORMAL || v == THREAD_PRIORITY_BELOW_NORMAL
    || v == THREAD_PRIORITY_HIGHEST || v == THREAD_PRIORITY_IDLE
    || v == THREAD_PRIORITY_LOWEST || v == THREAD_PRIORITY_NORMAL
    || v == THREAD_PRIORITY_TIME_CRITICAL
  }

  // ---------------------------------------------------------------------
  // Data model

  /** `WinAPIThreadPriority`, a `#[repr(u32)]` enum over the constants. */
  datatype WinAPIThreadPriority =
    | BackgroundModeBegin | BackgroundModeEnd | AboveNormal | BelowNormal
    | Highest | Idle | Lowest | Normal | TimeCritical

  /** The portable value of `Crossplatform`, a percentage-like `u8`. */
  datatype ThreadPriorityValue = ThreadPriorityValue(value: uint8)

  /** The raw Windows value of `Os`. */
  datatype ThreadPriorityOsValue = ThreadPriorityOsValue(value: uint32)

  /** The priority a Windows caller asks for. */
  datatype ThreadPriority =
    | Min
    | Crossplatform(cross: ThreadPriorityValue)
    | Os(os: ThreadPriorityOsValue)
    | Max

  const CROSSPLATFORM_RANGE_MSG := "The value is out of range [0; 99]."
  const OS_RANGE_MSG := "The value is out of range of allowed values."
  const PARSE_MSG := "Priority couldn't be parsed"

  /** `w as u32`: the constant the variant is declared with, always one of
      the nine known constants. */
  function Discriminant(w: WinAPIThreadPriority): (v: uint32)
    ensures IsKnownConstant(v)
  {
    match w
    case BackgroundModeBegin => THREAD_MODE_BACKGROUND_BEGIN
    case BackgroundModeEnd => THREAD_MODE_BACKGROUND_END
    case AboveNormal => THREAD_PRIORITY_ABOVE_NORMAL
    case BelowNormal => THREAD_PRIORITY_BELOW_NORMAL
    case Highest => THREAD_PRIORITY_HIGHEST
    case Idle => THREAD_PRIORITY_IDLE
    case Lowest => THREAD_PRIORITY_LOWEST
    case Normal => THREAD_PRIORITY_NORMAL
    case TimeCritical => THREAD_PRIORITY_TIME_CRITICAL
  }

  /** Distinct variants are declared with distinct constants. */
  lemma DiscriminantInjective(a: WinAPIThreadPriority, b: WinAPIThreadPriority)
    ensures Discriminant(a) == Discriminant(b) <==> a == b
  {
  }

  /** The value `SetThreadPriority` receives for a variant (`w as c_int`) is
      the signed level Microsoft documents for it. */
  lemma ArgumentIsDocumentedLevel(w: WinAPIThreadPriority)
    ensures AsI32(Discriminant(w)) == match w
      case BackgroundModeBegin => 0x1_0000
      case BackgroundModeEnd => 0x2_0000
      case AboveNormal => 1
      case BelowNormal => -1
      case Highest => 2
      case Idle => -15
      case Lowest => -2
      case Normal => 0
      case TimeCritical => 15
  {
  }

  // ---------------------------------------------------------------------
  // Conversions

  /** Whether the `Crossplatform` buckets cover a value: 0..99 without the
      gaps at 20, 40, 60 and 80. */
  predicate InBucket(p: int)
  {
    0 <= p < 100 && p != 20 && p != 40 && p != 60 && p != 80
  }

  /** The bucketing of a `Crossplatform` value; it never picks a
      background-mode pseudo-level. */
  function CrossplatformLevel(p: uint8): (r: Result<WinAPIThreadPriority, Error>)
    ensures r.Ok? <==> InBucket(p)
    ensures r.Err? ==> r.error == Lib.Priority(CROSSPLATFORM_RANGE_MSG)
    ensures r.Ok? ==> r.value != BackgroundModeBegin && r.value != BackgroundModeEnd
  {
    if p == 0 then Ok(Idle)
    else if 1 <= p <= 19 then Ok(Lowest)
    else if 21 <= p <= 39 then Ok(BelowNormal)
    else if 41 <= p <= 59 then Ok(Normal)
    else if 61 <= p <= 79 then Ok(AboveNormal)
    else if 81 <= p <= 98 then Ok(Highest)
    else if p == 99 then Ok(TimeCritical)
    else Err(Lib.Priority(CROSSPLATFORM_RANGE_MSG))
  }

  /** The membership test on the nine constants that an `Os` value and a
      `DWORD` read back both go through, with the error each reports. */
  function DecodeConstant(v: uint32, err: Error): (r: Result<WinAPIThreadPriority, Error>)
    ensures r.Ok? <==> IsKnownConstant(v)
    ensures r.Ok? ==> Discriminant(r.value) == v
    ensures r.Err? ==> r.error == err
  {
    if v == THREAD_MODE_BACKGROUND_BEGIN then Ok(BackgroundModeBegin)
    else if v == THREAD_MODE_BACKGROUND_END then Ok(BackgroundModeEnd)
    else if v == THREAD_PRIORITY_ABOVE_NORMAL then Ok(AboveNormal)
    else if v == THREAD_PRIORITY_BELOW_NORMAL then Ok(BelowNormal)
    else if v == THREAD_PRIORITY_HIGHEST then Ok(Highest)
    else if v == THREAD_PRIORITY_IDLE then Ok(Idle)
    else if v == THREAD_PRIORITY_LOWEST then Ok(Lowest)
    else if v == THREAD_PRIORITY_NORMAL then Ok(Normal)
    else if v == THREAD_PRIORITY_TIME_CRITICAL then Ok(TimeCritical)
    else Err(err)
  }

  /** `TryFrom<ThreadPriority> for WinAPIThreadPriority`: `Min` is `Lowest`,
      `Max` is `Highest`, `Crossplatform` is bucketed, and an `Os` value is
      accepted exactly when it is a known constant, as the variant declared
      with that constant. */
  function TryFromThreadPriority(priority: ThreadPriority): (r: Result<WinAPIThreadPriority, Error>)
    ensures priority == Min ==> r == Ok(Lowest)
    ensures priority == Max ==> r == Ok(Highest)
    ensures priority.Crossplatform? ==> (r.Ok? <==> InBucket(priority.cross.value))
    ensures priority.Crossplatform? ==> r == CrossplatformLevel(priority.cross.value)
    ensures priority.Os? ==> (r.Ok? <==> IsKnownConstant(priority.os.value))
    ensures priority.Os? && r.Ok? ==> Discriminant(r.value) == priority.os.value
    ensures priority.Os? && r.Err? ==> r.error == Lib.Priority(OS_RANGE_MSG)
    ensures r.Err? ==> r.error.Priority?
  {
    match priority
    case Min => Ok(Lowest)
    case Crossplatform(ThreadPriorityValue(p)) => CrossplatformLevel(p)
    case Os(ThreadPriorityOsValue(p)) => DecodeConstant(p, Lib.Priority(OS_RANGE_MSG))
    case Max => Ok(Highest)
  }

  /** `TryFrom<DWORD> for WinAPIThreadPriority`: strict membership. */
  function TryFromDword(d: uint32): (r: Result<WinAPIThreadPriority, Error>)
    ensures r.Ok? <==> IsKnownConstant(d)
    ensures r.Ok? ==> Discriminant(r.value) == d
    ensures r.Err? ==> r.error == Lib.Priority(PARSE_MSG)
  {
    DecodeConstant(d, Lib.Priority(PARSE_MSG))
  }

  /** `From<WinAPIThreadPriority> for ThreadPriorityOsValue`. */
  function OsValueFrom(w: WinAPIThreadPriority): (o: ThreadPriorityOsValue)
    ensures IsKnownConstant(o.value)
    ensures TryFromDword(o.value) == Ok(w)
  {
    ThreadPriorityOsValue(Discriminant(w))
  }

  /** `TryFrom<u32> for ThreadPriorityOsValue`: the value itself when it is
      one of the nine constants, `Err(())` otherwise. */
  function OsValueTryFrom(v: uint32): (r: Result<ThreadPriorityOsValue, ()>)
    ensures r.Ok? <==> IsKnownConstant(v)
    ensures r.Ok? ==> r.value.value == v
  {
    if v == THREAD_MODE_BACKGROUND_BEGIN
      || v == THREAD_MODE_BACKGROUND_END
      || v == THREAD_PRIORITY_ABOVE_NORMAL
      || v == THREAD_PRIORITY_BELOW_NORMAL
      || v == THREAD_PRIORITY_HIGHEST
      || v == THREAD_PRIORITY_IDLE
      || v == THREAD_PRIORITY_LOWEST
      || v == THREAD_PRIORITY_NORMAL
      || v == THREAD_PRIORITY_TIME_CRITICAL
    then Ok(ThreadPriorityOsValue(v))
    else Err(())
  }

  /** The bucket table, range by range. */
  lemma CrossplatformBuckets(p: uint8)
    ensures p == 0 ==> CrossplatformLevel(p) == Ok(Idle)
    ensures 1 <= p <= 19 ==> CrossplatformLevel(p) == Ok(Lowest)
    ensures 21 <= p <= 39 ==> CrossplatformLevel(p) == Ok(BelowNormal)
    ensures 41 <= p <= 59 ==> CrossplatformLevel(p) == Ok(Normal)
    ensures 61 <= p <= 79 ==> CrossplatformLevel(p) == Ok(AboveNormal)
    ensures 81 <= p <= 98 ==> CrossplatformLevel(p) == Ok(Highest)
    ensures p == 99 ==> CrossplatformLevel(p) == Ok(TimeCritical)
    ensures p in {20, 40, 60, 80} || p >= 100 ==>
      CrossplatformLevel(p) == Err(Lib.Priority(CROSSPLATFORM_RANGE_MSG))
  {
  }

  /** A larger `Crossplatform` value never lands on a lower Windows level. */
  lemma CrossplatformMonotone(p: uint8, q: uint8)
    requires p <= q && InBucket(p) && InBucket(q)
    ensures AsI32(Discriminant(CrossplatformLevel(p).value)) <= AsI32(Discriminant(CrossplatformLevel(q).value))
  {
  }

  /** Concrete conversions: `Min`, `Max`, 23 (the crate's Windows tests
      check these three), and the values on either side of each bucket edge. */
  lemma ConversionExamples()
    ensures TryFromThreadPriority(Min) == Ok(Lowest)
    ensures TryFromThreadPriority(Max) == Ok(Highest)
    ensures TryFromThreadPriority(Crossplatform(ThreadPriorityValue(23))) == Ok(BelowNormal)
    ensures TryFromThreadPriority(Crossplatform(ThreadPriorityValue(0))) == Ok(Idle)
    ensures TryFromThreadPriority(Crossplatform(ThreadPriorityValue(19))) == Ok(Lowest)
    ensures TryFromThreadPriority(Crossplatform(ThreadPriorityValue(20))).Err?
    ensures TryFromThreadPriority(Crossplatform(ThreadPriorityValue(40))).Err?
    ensures TryFromThreadPriority(Crossplatform(ThreadPriorityValue(41))) == Ok(Normal)
    ensures TryFromThreadPriority(Crossplatform(ThreadPriorityValue(99))) == Ok(TimeCritical)
    ensures TryFromThreadPriority(Crossplatform(ThreadPriorityValue(100))).Err?
  {
  }

  /** Every variant survives both round trips through its constant. */
  lemma VariantRoundTrips(w: WinAPIThreadPriority)
    ensures TryFromDword(Discriminant(w)) == Ok(w)
    ensures TryFromThreadPriority(Os(OsValueFrom(w))) == Ok(w)
  {
  }

  /** `ThreadPriorityOsValue::try_from`, the `DWORD` decoder and the `Os`
      branch accept the same values, and agree on what they make of them. */
  lemma DecodersAgree(v: uint32)
    ensures OsValueTryFrom(v).Ok? <==> TryFromDword(v).Ok?
    ensures OsValueTryFrom(v).Ok? <==> TryFromThreadPriority(Os(ThreadPriorityOsValue(v))).Ok?
    ensures TryFromDword(v).Ok? ==>
      OsValueFrom(TryFromDword(v).value) == OsValueTryFrom(v).value
      && TryFromThreadPriority(Os(ThreadPriorityOsValue(v))) == TryFromDword(v)
  {
  }

  // ---------------------------------------------------------------------
  // The operating system and the wrappers

  /** A `HANDLE`, opaque here. */
  type ThreadId = uint64

  /** What the Windows calls answer: `SetThreadPriority` (non-zero on
      success), `GetThreadPriority`, `GetLastError` after a failure, and the
      pseudo-handle `GetCurrentThread` gives. */
  datatype WinApi = WinApi(
    setThreadPriority: (ThreadId, int32) -> int32,
    getThreadPriority: ThreadId -> int32,
    lastError: uint32,
    currentThread: ThreadId)

  /** `set_winapi_thread_priority`: passes the variant's value as a `c_int`
      and turns a zero answer into `OS(GetLastError() as i32)`. */
  function SetWinapiThreadPriority(os: WinApi, native: ThreadId, priority: WinAPIThreadPriority): (r: Result<(), Error>)
    ensures r.Ok? <==> os.setThreadPriority(native, AsI32(Discriminant(priority))) != 0
    ensures r.Err? ==> r.error == Lib.OS(AsI32(os.lastError))
  {
    if os.setThreadPriority(native, AsI32(Discriminant(priority))) != 0 then Ok(())
    else Err(Lib.OS(AsI32(os.lastError)))
  }

  /** `set_thread_priority`: a priority that does not convert is refused
      with the conversion's error, whatever the operating system would say;
      otherwise the converted level is set. */
  function SetThreadPriority(os: WinApi, native: ThreadId, priority: ThreadPriority): (r: Result<(), Error>)
    ensures TryFromThreadPriority(priority).Err? ==> r == Err(TryFromThreadPriority(priority).error)
    ensures TryFromThreadPriority(priority).Ok? ==>
      r == SetWinapiThreadPriority(os, native, TryFromThreadPriority(priority).value)
  {
    match TryFromThreadPriority(priority)
    case Err(e) => Err(e)
    case Ok(w) => SetWinapiThreadPriority(os, native, w)
  }

  /** `set_current_thread_priority`: the same, for the calling thread. */
  function SetCurrentThreadPriority(os: WinApi, priority: ThreadPriority): (r: Result<(), Error>)
    ensures r == SetThreadPriority(os, os.currentThread, priority)
  {
    SetThreadPriority(os, os.currentThread, priority)
  }

  /** `get_thread_priority`: the error return is an `OS` error; any other
      value is either a known constant, reported as `Os` of exactly that
      value, or a decode error. No unrecognised `Os` value comes out. */
  function GetThreadPriority(os: WinApi, native: ThreadId): (r: Result<ThreadPriority, Error>)
    ensures AsU32(os.getThreadPriority(native)) == THREAD_PRIORITY_ERROR_RETURN ==>
      r == Err(Lib.OS(AsI32(os.lastError)))
    ensures AsU32(os.getThreadPriority(native)) != THREAD_PRIORITY_ERROR_RETURN ==>
      (r.Ok? <==> IsKnownConstant(AsU32(os.getThreadPriority(native))))
    ensures AsU32(os.getThreadPriority(native)) != THREAD_PRIORITY_ERROR_RETURN && r.Err? ==>
      r.error == Lib.Priority(PARSE_MSG)
    ensures r.Ok? ==>
      r.value.Os? && IsKnownConstant(r.value.os.value)
      && r.value.os.value == AsU32(os.getThreadPriority(native))
  {
    var ret := os.getThreadPriority(native);
    if AsU32(ret) != THREAD_PRIORITY_ERROR_RETURN then
      match TryFromDword(AsU32(ret))
      case Ok(w) => Ok(Os(ThreadPriorityOsValue(Discriminant(w))))
      case Err(e) => Err(e)
    else
      Err(Lib.OS(AsI32(os.lastError)))
  }

  /** `get_current_thread_priority`: the same, for the calling thread. */
  function GetCurrentThreadPriority(os: WinApi): (r: Result<ThreadPriority, Error>)
    ensures r == GetThreadPriority(os, os.currentThread)
  {
    GetThreadPriority(os, os.currentThread)
  }

  /** Setting back a priority just read converts without error and hands
      `SetThreadPriority` the very value `GetThreadPriority` returned, so
      the re-apply succeeds whenever the operating system accepts it. */
  lemma ReapplyReadPriority(os: WinApi, native: ThreadId)
    requires GetThreadPriority(os, native).Ok?
    ensures TryFromThreadPriority(GetThreadPriority(os, native).value).Ok?
    ensures AsI32(Discriminant(TryFromThreadPriority(GetThreadPriority(os, native).value).value))
         == os.getThreadPriority(native)
    ensures os.setThreadPriority(native, os.getThreadPriority(native)) != 0 ==>
      SetThreadPriority(os, native, GetThreadPriority(os, native).value) == Ok(())
  {
  }

  /** A priority that fails conversion is refused the same way under any
      operating system: no call is made. */
  lemma ValidationComesFirst(os1: WinApi, os2: WinApi, native: ThreadId, priority: ThreadPriority)
    requires TryFromThreadPriority(priority).Err?
    ensures SetThreadPriority(os1, native, priority) == SetThreadPriority(os2, native, priority)
  {
  }
}
