/** The grading status of an acquired image (src/models.rs): three variants
    with fixed discriminants, and `from_i32`, which names a stored integer
    status and falls back to "Unknown". The record types of that file are
    plain data carriers and are not modelled. */
module Models {

  newtype i32 = x: int | -0x8000_0000 <= x < 0x8000_0000

  datatype GradingStatus = Pending | Accepted | Rejected

  /** The discriminant, `status as i32`. */
  function Discriminant(s: GradingStatus): (d: i32)
    ensures 0 <= d <= 2
  {
    match s
    case Pending => 0
    case Accepted => 1
    case Rejected => 2
  }

  /** The variant's own name. */
  function Name(s: GradingStatus): string {
    match s
    case Pending => "Pending"
    case Accepted => "Accepted"
    case Rejected => "Rejected"
  }

  /** `GradingStatus::from_i32`: a known discriminant is named after its variant, every
      other integer is "Unknown". */
  function FromI32(value: i32): (name: string)
    ensures name == "Unknown" <==> !(0 <= value <= 2)
    ensures name != "Unknown" ==> exists s :: Discriminant(s) == value && Name(s) == name
  {
    match value
    case 0 => assert Discriminant(Pending) == 0; "Pending"
    case 1 => assert Discriminant(Accepted) == 1; "Accepted"
    case 2 => assert Discriminant(Rejected) == 2; "Rejected"
    case _ => "Unknown"
  }

  /** Distinct variants have distinct discriminants. */
  lemma DiscriminantInjective(s: GradingStatus, t: GradingStatus)
    ensures Discriminant(s) == Discriminant(t) <==> s == t
  {
  }

  /** Naming a variant's discriminant gives the variant's own name. */
  lemma FromI32OfDiscriminant(s: GradingStatus)
    ensures FromI32(Discriminant(s)) == Name(s)
  {
  }
}
