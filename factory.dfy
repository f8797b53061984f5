/** The choice of waypoint generator for a requested search mode. */
module Factory {

  /** The requested search mode; `OtherType` is any value outside the three known modes. */
  datatype SearchType = SpiralOutType | LawnMowerType | SpiralInType | OtherType(code: int)

  /** The waypoint-generator variants. */
  datatype Variant = SpiralOut | LawnMower | SpiralIn

  /** The variant built for a mode: each known mode gets its own variant, and an unknown
      mode falls back to the outward spiral. */
  function VariantFor(t: SearchType): (v: Variant)
    ensures t.OtherType? ==> v == SpiralOut
  {
    match t
    case SpiralOutType => SpiralOut
    case LawnMowerType => LawnMower
    case SpiralInType => SpiralIn
    case OtherType(_) => SpiralOut
  }

  /** The mode that names a variant. */
  function ModeOf(v: Variant): (t: SearchType)
    ensures !t.OtherType?
  {
    match v
    case SpiralOut => SpiralOutType
    case LawnMower => LawnMowerType
    case SpiralIn => SpiralInType
  }

  /** Asking for the mode of a variant yields that variant, and every known mode is the mode
      of the variant it yields: the known modes and the variants correspond one to one. */
  lemma VariantForModeOf(v: Variant, t: SearchType)
    ensures VariantFor(ModeOf(v)) == v
    ensures !t.OtherType? ==> ModeOf(VariantFor(t)) == t
  {
  }

  /** Distinct known modes yield distinct variants. */
  lemma VariantForInjectiveOnKnownModes(s: SearchType, t: SearchType)
    requires !s.OtherType? && !t.OtherType? && VariantFor(s) == VariantFor(t)
    ensures s == t
  {
  }
}
