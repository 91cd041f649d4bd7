/** Small definitions shared by the other modules. */
module Basics {

  datatype Option<+T> = None | Some(value: T)

  /** One octet of a byte string. */
  type Byte = b: int | 0 <= b < 256

  type Bytes = seq<Byte>

  /** Sizes and counters kept in an unsigned int wrap around here. */
  const UINT_RANGE: nat := 0x1_0000_0000

  /** The parts of a segmented string, joined. */
  function Concat<T>(parts: seq<seq<T>>): (s: seq<T>)
  {
    if parts == [] then [] else parts[0] + Concat(parts[1..])
  }

  lemma {:induction false} ConcatAppend<T>(xs: seq<seq<T>>, ys: seq<seq<T>>)
    ensures Concat(xs + ys) == Concat(xs) + Concat(ys)
  {
    if xs == [] {
      assert xs + ys == ys;
    } else {
      assert (xs + ys)[1..] == xs[1..] + ys;
      ConcatAppend(xs[1..], ys);
    }
  }

  lemma ConcatSingle<T>(x: seq<T>)
    ensures Concat([x]) == x
  {
  }

  lemma ConcatSnoc<T>(xs: seq<seq<T>>, x: seq<T>)
    ensures Concat(xs + [x]) == Concat(xs) + x
  {
    ConcatAppend(xs, [x]);
    ConcatSingle(x);
  }

  lemma ConcatSplit<T>(xs: seq<seq<T>>, i: nat)
    requires i <= |xs|
    ensures Concat(xs) == Concat(xs[..i]) + Concat(xs[i..])
  {
    assert xs == xs[..i] + xs[i..];
    ConcatAppend(xs[..i], xs[i..]);
  }

  lemma ConcatTake<T>(xs: seq<seq<T>>, i: nat)
    requires i < |xs|
    ensures Concat(xs[..i + 1]) == Concat(xs[..i]) + xs[i]
  {
    assert xs[..i + 1] == xs[..i] + [xs[i]];
    ConcatSnoc(xs[..i], xs[i]);
  }

  lemma ConcatAt<T>(xs: seq<seq<T>>, i: nat)
    requires i < |xs|
    ensures Concat(xs) == Concat(xs[..i]) + xs[i] + Concat(xs[i + 1..])
  {
    ConcatTake(xs, i);
    ConcatSplit(xs, i + 1);
  }
}
