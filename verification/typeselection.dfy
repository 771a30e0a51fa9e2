/**
 * util/BasicTypeSelection.h: a compile-time table that ranks the basic
 * arithmetic types by range and picks, for two types, the one of higher rank.
 * Types become an enumeration and the template structs become total functions.
 */
module TypeSelection {
  /** The basic types that `TypeRank` is specialised for. */
  datatype BasicType = UInt8 | Int8 | UInt16 | Int16 | UInt32 | Int32 | UInt64 | Int64 | Float | Double

  /** The ranks `RankType` is specialised for; any other rank does not compile. */
  type Rank = r: nat | r < 10

  /** `TypeRank<T>::value`. */
  function TypeRank(t: BasicType): (r: Rank)
    ensures t.Int8? || t.Int16? || t.Int32? || t.Int64? <==> r % 2 == 1 && r < 8
    ensures t.Float? || t.Double? <==> r >= 8
  {
    match t
    case UInt8 => 0
    case Int8 => 1
    case UInt16 => 2
    case Int16 => 3
    case UInt32 => 4
    case Int32 => 5
    case UInt64 => 6
    case Int64 => 7
    case Float => 8
    case Double => 9
  }

  /** `RankType<R>::type` as written: rank 7 is mapped to `int8_t`. */
  function RankTypeAsWritten(r: Rank): (t: BasicType)
    ensures r != 7 ==> TypeRank(t) == r
    ensures r == 7 ==> TypeRank(t) == 1
  {
    match r
    case 0 => UInt8
    case 1 => Int8
    case 2 => UInt16
    case 3 => Int16
    case 4 => UInt32
    case 5 => Int32
    case 6 => UInt64
    case 7 => Int8
    case 8 => Float
    case 9 => Double
  }

  /** `RankType<R>::type` as intended: the type whose rank is `R`. */
  function RankType(r: Rank): (t: BasicType)
    ensures TypeRank(t) == r
  {
    match r
    case 0 => UInt8
    case 1 => Int8
    case 2 => UInt16
    case 3 => Int16
    case 4 => UInt32
    case 5 => Int32
    case 6 => UInt64
    case 7 => Int64
    case 8 => Float
    case 9 => Double
  }

  /** `TypeRank` is a bijection onto the ranks, and `RankType` is its inverse. */
  lemma {:induction false} TypeRankIsBijection(t: BasicType, u: BasicType, r: Rank)
    ensures TypeRank(t) == TypeRank(u) ==> t == u
    ensures RankType(TypeRank(t)) == t
    ensures TypeRank(RankType(r)) == r
  {
  }

  /** As written, the round trip through the rank loses exactly `int64_t`, which comes back as `int8_t`. */
  lemma {:induction false} RankTypeAsWrittenLosesInt64(t: BasicType)
    ensures t != Int64 ==> RankTypeAsWritten(TypeRank(t)) == t
    ensures RankTypeAsWritten(TypeRank(Int64)) == Int8
  {
  }

  /** `maxRank(r1, r2)`. */
  function MaxRank(r1: nat, r2: nat): (r: nat)
    ensures r >= r1 && r >= r2
    ensures r == r1 || r == r2
  {
    if r1 > r2 then r1 else r2
  }

  /** `selectBasicType<T1, T2>::type` as written. */
  function SelectBasicTypeAsWritten(t1: BasicType, t2: BasicType): BasicType
  {
    RankTypeAsWritten(MaxRank(TypeRank(t1), TypeRank(t2)))
  }

  /** `selectBasicType<T1, T2>::type` as intended: the input of higher rank. */
  function SelectBasicType(t1: BasicType, t2: BasicType): (t: BasicType)
    ensures t == t1 || t == t2
    ensures TypeRank(t) >= TypeRank(t1) && TypeRank(t) >= TypeRank(t2)
  {
    RankType(MaxRank(TypeRank(t1), TypeRank(t2)))
  }

  /** The selection does not depend on the order of the two types. */
  lemma {:induction false} SelectBasicTypeSymmetric(t1: BasicType, t2: BasicType)
    ensures SelectBasicType(t1, t2) == SelectBasicType(t2, t1)
    ensures SelectBasicTypeAsWritten(t1, t2) == SelectBasicTypeAsWritten(t2, t1)
  {
  }

  /**
   * The written selection agrees with the intended one except when `int64_t`
   * wins, where it yields `int8_t`: `selectBasicType<int64_t, int32_t>` is
   * narrower than both of its inputs.
   */
  lemma {:induction false} SelectBasicTypeAsWrittenNarrowsInt64(t1: BasicType, t2: BasicType)
    ensures SelectBasicType(t1, t2) != Int64 ==> SelectBasicTypeAsWritten(t1, t2) == SelectBasicType(t1, t2)
    ensures SelectBasicType(t1, t2) == Int64 ==> SelectBasicTypeAsWritten(t1, t2) == Int8
    ensures SelectBasicTypeAsWritten(Int64, Int32) == Int8
    ensures TypeRank(SelectBasicTypeAsWritten(Int64, Int32)) < TypeRank(Int32)
  {
    TypeRankIsBijection(SelectBasicType(t1, t2), Int64, 7);
  }
}
