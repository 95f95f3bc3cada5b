/** The portable layer of the crate: its error type and the POSIX-side
    `ThreadPriority` with the ordering `#[derive(Ord)]` gives it. */
module Lib {
  import opened Base

  /** The crate's error type. The texts of `Priority` and `Ffi` are the
      static strings the backends attach. */
  datatype Error =
    | Priority(reason: string)
    | OS(code: int32)
    | Ffi(reason: string)

  /** The priority a caller asks for. The doc comment wants `Specific` in
      [0; 100], but nothing enforces it; the payload is `u32` here because
      that is how the POSIX backend builds and reads it (every `u8` fits). */
  datatype ThreadPriority = Min | Specific(value: uint32) | Max

  datatype Ordering = Less | Equal | Greater

  /** Position of the variant in the declaration, which is what the derived
      ordering compares first. */
  function VariantIndex(p: ThreadPriority): nat
  {
    match p
    case Min => 0
    case Specific(_) => 1
    case Max => 2
  }

  function CompareInt(a: int, b: int): (o: Ordering)
    ensures o == Less <==> a < b
    ensures o == Equal <==> a == b
  {
    if a < b then Less else if a == b then Equal else Greater
  }

  /** `Ord::cmp` as derived: variant index first, then the payload. */
  function Cmp(a: ThreadPriority, b: ThreadPriority): (o: Ordering)
    ensures o == Equal <==> a == b
    ensures a == Min && b != Min ==> o == Less
    ensures a == Max && b != Max ==> o == Greater
  {
    if VariantIndex(a) != VariantIndex(b) then CompareInt(VariantIndex(a), VariantIndex(b))
    else if a.Specific? then CompareInt(a.value, b.value)
    else Equal
  }

  /** The derived `<`: an earlier variant, or a smaller `Specific` payload. */
  predicate Lt(a: ThreadPriority, b: ThreadPriority)
    ensures Lt(a, b) <==>
      VariantIndex(a) < VariantIndex(b) || (a.Specific? && b.Specific? && a.value < b.value)
  {
    Cmp(a, b) == Less
  }

  /** The derived `<=`: `<` or equal. */
  predicate Le(a: ThreadPriority, b: ThreadPriority)
    ensures Le(a, b) <==> Lt(a, b) || a == b
  {
    Cmp(a, b) != Greater
  }

  /** `Min` lies strictly below every other priority. */
  lemma MinIsLeast(p: ThreadPriority)
    requires p != Min
    ensures Lt(Min, p) && !Le(p, Min)
  {
  }

  /** `Max` lies strictly above every other priority. */
  lemma MaxIsGreatest(p: ThreadPriority)
    requires p != Max
    ensures Lt(p, Max) && !Le(Max, p)
  {
  }

  /** Between two `Specific` values the order is that of the payloads. */
  lemma SpecificOrder(a: uint32, b: uint32)
    ensures Le(Specific(a), Specific(b)) <==> a <= b
    ensures Lt(Specific(a), Specific(b)) <==> a < b
  {
  }

  /** The derived ordering is a total order whose equality is the structural
      one, and `cmp` is antisymmetric. */
  lemma TotalOrder(a: ThreadPriority, b: ThreadPriority, c: ThreadPriority)
    ensures Le(a, a)
    ensures Le(a, b) && Le(b, a) <==> a == b
    ensures Le(a, b) && Le(b, c) ==> Le(a, c)
    ensures Le(a, b) || Le(b, a)
    ensures Cmp(a, b) == Less <==> Cmp(b, a) == Greater
  {
  }

  /** Values outside the documented [0; 100] are ordinary values of the type:
      they are kept as they are and ordered by their payload, not clamped. */
  lemma RangeNotEnforced(p: uint8)
    ensures Specific(p).value == p
    ensures 100 < p ==> Lt(Specific(100), Specific(p)) && Lt(Specific(p), Max)
  {
  }
}
