/**
  JKPulleyStatus: an option set whose four members are single bits of an
  unsigned raw value. The model works with the set of members; the raw
  encoding is kept beside it and proved to be a faithful encoding.
 */
module PulleyStatus {

  /** The four members, in the order of their bits (1, 2, 4, 8). */
  datatype Flag = None | Closed | PartiallyExpand | Expand

  type Status = set<Flag>

  /** The raw value type of the option set (UInt on a 64-bit platform). */
  type RawStatus = bv64

  const AllFlags: set<Flag> := {None, Closed, PartiallyExpand, Expand}

  /** The three resting positions a drawer can snap to. */
  const DrawerStates: set<Flag> := {Closed, PartiallyExpand, Expand}

  function Bit(f: Flag): RawStatus {
    match f
    case None => 1
    case Closed => 2
    case PartiallyExpand => 4
    case Expand => 8
  }

  /** OptionSet.contains for a single-bit member. */
  predicate RawContains(raw: RawStatus, f: Flag) {
    raw & Bit(f) == Bit(f)
  }

  function BitIf(b: bool, f: Flag): RawStatus {
    if b then Bit(f) else 0
  }

  /** The raw value of a set of members: the union of their bits. */
  function RawValue(s: Status): (raw: RawStatus)
    ensures forall f :: RawContains(raw, f) <==> f in s
    ensures raw & 0xF == raw
  {
    BitIf(None in s, None) | BitIf(Closed in s, Closed)
      | BitIf(PartiallyExpand in s, PartiallyExpand) | BitIf(Expand in s, Expand)
  }

  /** The members whose bits are set in a raw value; other bits are ignored. */
  function FromRaw(raw: RawStatus): (s: Status)
    ensures forall f :: f in s <==> RawContains(raw, f)
  {
    set f | f in AllFlags && RawContains(raw, f)
  }

  /** Decoding an encoded status gives the status back. */
  lemma FromRawOfRawValue(s: Status)
    ensures FromRaw(RawValue(s)) == s
  {
    var t := FromRaw(RawValue(s));
    assert forall f :: f in t <==> f in s;
  }

  /** Encoding a decoded raw value keeps exactly the four member bits. */
  lemma RawValueOfFromRaw(raw: RawStatus)
    ensures RawValue(FromRaw(raw)) == raw & 0xF
  {
  }
}
