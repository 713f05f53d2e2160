// Small shared definitions.

module Common {
  datatype Option<+T> = None | Some(value: T)

  function Max(a: nat, b: nat): nat { if a < b then b else a }

  function Min(a: nat, b: nat): nat { if a < b then a else b }

  /** The largest value of a 64-bit machine word. */
  const USIZE_MAX: nat := 0xFFFF_FFFF_FFFF_FFFF

  /** `a + b` in a machine word, stopping at both ends. */
  function SaturatingAdd(a: nat, b: int): nat {
    if a + b < 0 then 0 else Min(a + b, USIZE_MAX)
  }

  type Byte = b: nat | b < 256

  /** The sequence holds `part` at `i`. */
  predicate HoldsAt<T(==)>(whole: seq<T>, i: nat, part: seq<T>) {
    i + |part| <= |whole| && whole[i..i + |part|] == part
  }

  lemma HoldsAtSum<T>(whole: seq<T>, i: nat, a: seq<T>, b: seq<T>)
    ensures HoldsAt(whole, i, a + b) <==> HoldsAt(whole, i, a) && HoldsAt(whole, i + |a|, b)
  {
    if i + |a| + |b| <= |whole| {
      assert whole[i..i + |a + b|] == whole[i..i + |a|] + whole[i + |a|..i + |a| + |b|];
      assert (a + b)[..|a|] == a && (a + b)[|a|..] == b;
      assert HoldsAt(whole, i, a + b) ==> whole[i..i + |a + b|][..|a|] == a && whole[i..i + |a + b|][|a|..] == b;
    }
  }
}
