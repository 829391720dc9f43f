/**
 * Evaluation contexts and the shift decorator.  A context is either a root,
 * holding the coordinates an evaluation started from and the signal it is
 * bound to, or a shift that wraps another context and adds a fixed offset to
 * its instant.  A shift delegates every other question to the context it
 * wraps.  The root's own parameter and past-value lookups are not part of
 * this model: they are taken as arbitrary functions of the root, so that what
 * is proved here is exactly the delegation.
 */
module Context {
  import opened Wrappers

  datatype Ctx<S> =
    | Root(instant: int, dims: seq<int>, signal: Option<S>)
    | Shifted(inner: Ctx<S>, shift: int)

  /** The root at the bottom of a chain of shifts. */
  function RootOf<S>(c: Ctx<S>): (r: Ctx<S>)
    ensures r.Root?
  {
    match c
    case Root(_, _, _) => c
    case Shifted(inner, _) => RootOf(inner)
  }

  /** The offsets of a chain, innermost first. */
  function Shifts<S>(c: Ctx<S>): seq<int>
  {
    match c
    case Root(_, _, _) => []
    case Shifted(inner, k) => Shifts(inner) + [k]
  }

  function Sum(ks: seq<int>): int
  {
    if ks == [] then 0 else ks[0] + Sum(ks[1..])
  }

  /** Wraps `c` in one shift per offset of `ks`, first offset innermost. */
  function ShiftBy<S>(c: Ctx<S>, ks: seq<int>): Ctx<S>
    decreases |ks|
  {
    if ks == [] then c else ShiftBy(Shifted(c, ks[0]), ks[1..])
  }

  /** The instant: the root's instant moved by every offset of the chain. */
  function GetInstant<S>(c: Ctx<S>): (t: int)
    ensures t == RootOf(c).instant + Sum(Shifts(c))
  {
    match c
    case Root(instant, _, _) => instant
    case Shifted(inner, k) =>
      SumSnoc(Shifts(inner), k);
      GetInstant(inner) + k
  }

  /** The spatial coordinates: those of the root, in the same order. */
  function GetDims<S>(c: Ctx<S>): (d: seq<int>)
    ensures d == RootOf(c).dims
  {
    match c
    case Root(_, dims, _) => dims
    case Shifted(inner, _) => GetDims(inner)
  }

  /** The bound signal: that of the root, possibly none. */
  function GetSignal<S>(c: Ctx<S>): (s: Option<S>)
    ensures s == RootOf(c).signal
  {
    match c
    case Root(_, _, signal) => signal
    case Shifted(inner, _) => GetSignal(inner)
  }

  /**
   * A parameter lookup: whatever the root answers for `name`, whatever the
   * shifts in between.  `rootParam` stands for the root's own lookup.
   */
  function Param<S, R>(c: Ctx<S>, rootParam: (Ctx<S>, string) -> R, name: string): (r: R)
    ensures r == rootParam(RootOf(c), name)
  {
    match c
    case Root(_, _, _) => rootParam(c, name)
    case Shifted(inner, _) => Param(inner, rootParam, name)
  }

  /**
   * A look at the bound signal's past: the root receives the step count and
   * the coordinates exactly as given; no offset of the chain is applied.
   */
  function Past<S, R>(c: Ctx<S>, rootPast: (Ctx<S>, int, seq<int>) -> R, steps: int, dims: seq<int>): (r: R)
    ensures r == rootPast(RootOf(c), steps, dims)
  {
    match c
    case Root(_, _, _) => rootPast(c, steps, dims)
    case Shifted(inner, _) => Past(inner, rootPast, steps, dims)
  }

  /**
   * A look at another signal's past: the root receives the name, the step
   * count and the coordinates exactly as given; no offset is applied.
   */
  function GlobalPast<S, R>(c: Ctx<S>, rootGlobalPast: (Ctx<S>, string, int, seq<int>) -> R,
                            name: string, steps: int, dims: seq<int>): (r: R)
    ensures r == rootGlobalPast(RootOf(c), name, steps, dims)
  {
    match c
    case Root(_, _, _) => rootGlobalPast(c, name, steps, dims)
    case Shifted(inner, _) => GlobalPast(inner, rootGlobalPast, name, steps, dims)
  }

  /**
   * The same context bound to `signal`: a shift rebinds what it wraps and
   * keeps its offset; a root replaces its bound signal.  The instant, the
   * coordinates and every offset of the chain stay as they were.
   */
  function WithSignal<S>(c: Ctx<S>, signal: S): (r: Ctx<S>)
    ensures RootOf(r) == Root(RootOf(c).instant, RootOf(c).dims, Some(signal))
    ensures Shifts(r) == Shifts(c)
    ensures GetSignal(r) == Some(signal)
    ensures GetInstant(r) == GetInstant(c)
    ensures GetDims(r) == GetDims(c)
  {
    match c
    case Root(instant, dims, _) => Root(instant, dims, Some(signal))
    case Shifted(inner, k) => Shifted(WithSignal(inner, signal), k)
  }

  lemma {:induction false} SumSnoc(ks: seq<int>, k: int)
    ensures Sum(ks + [k]) == Sum(ks) + k
    decreases |ks|
  {
    if ks == [] {
      assert [k][1..] == [];
    } else {
      assert (ks + [k])[1..] == ks[1..] + [k];
      SumSnoc(ks[1..], k);
    }
  }

  /** One shift adds its offset to the instant and changes nothing else. */
  lemma ShiftedView<S>(c: Ctx<S>, k: int)
    ensures GetInstant(Shifted(c, k)) == GetInstant(c) + k
    ensures GetDims(Shifted(c, k)) == GetDims(c)
    ensures GetSignal(Shifted(c, k)) == GetSignal(c)
    ensures RootOf(Shifted(c, k)) == RootOf(c)
  {
  }

  /** Adding one more offset to a list of shifts wraps the result once more. */
  lemma {:induction false} ShiftBySnoc<S>(c: Ctx<S>, ks: seq<int>, k: int)
    ensures ShiftBy(c, ks + [k]) == Shifted(ShiftBy(c, ks), k)
    decreases |ks|
  {
    if ks == [] {
      assert ShiftBy(Shifted(c, k), []) == Shifted(c, k);
    } else {
      assert (ks + [k])[1..] == ks[1..] + [k];
      ShiftBySnoc(Shifted(c, ks[0]), ks[1..], k);
    }
  }

  /** Every context is its root wrapped in its own offsets, innermost first. */
  lemma {:induction false} Decompose<S>(c: Ctx<S>)
    ensures c == ShiftBy(RootOf(c), Shifts(c))
  {
    match c
    case Root(_, _, _) =>
    case Shifted(inner, k) =>
      Decompose(inner);
      ShiftBySnoc(RootOf(inner), Shifts(inner), k);
  }

  /**
   * A chain of shifts moves the instant by the sum of its offsets and leaves
   * the root, and so the coordinates and the bound signal, as they were.
   */
  lemma {:induction false} ShiftByView<S>(c: Ctx<S>, ks: seq<int>)
    ensures GetInstant(ShiftBy(c, ks)) == GetInstant(c) + Sum(ks)
    ensures RootOf(ShiftBy(c, ks)) == RootOf(c)
    ensures GetDims(ShiftBy(c, ks)) == GetDims(c)
    ensures GetSignal(ShiftBy(c, ks)) == GetSignal(c)
    ensures Shifts(ShiftBy(c, ks)) == Shifts(c) + ks
    decreases |ks|
  {
    if ks != [] {
      ShiftByView(Shifted(c, ks[0]), ks[1..]);
      assert Shifts(c) + ks == Shifts(c) + [ks[0]] + ks[1..];
    }
  }

  /** Rebinding a chain of shifts is rebinding what the chain wraps. */
  lemma {:induction false} WithSignalThroughShifts<S>(c: Ctx<S>, ks: seq<int>, signal: S)
    ensures WithSignal(ShiftBy(c, ks), signal) == ShiftBy(WithSignal(c, signal), ks)
    decreases |ks|
  {
    if ks != [] {
      WithSignalThroughShifts(Shifted(c, ks[0]), ks[1..], signal);
    }
  }

  /**
   * Two contexts look alike when they have the same root and the same
   * instant: no question a caller can put to a context tells them apart.
   */
  ghost predicate SameView<S>(c1: Ctx<S>, c2: Ctx<S>)
  {
    RootOf(c1) == RootOf(c2) && GetInstant(c1) == GetInstant(c2)
  }

  /** Contexts that look alike answer every lookup alike, also after rebinding. */
  lemma SameViewSameAnswers<S, R>(c1: Ctx<S>, c2: Ctx<S>, signal: S,
                                  rootParam: (Ctx<S>, string) -> R,
                                  rootPast: (Ctx<S>, int, seq<int>) -> R,
                                  rootGlobalPast: (Ctx<S>, string, int, seq<int>) -> R,
                                  name: string, steps: int, dims: seq<int>)
    requires SameView(c1, c2)
    ensures GetInstant(c1) == GetInstant(c2)
    ensures GetDims(c1) == GetDims(c2)
    ensures GetSignal(c1) == GetSignal(c2)
    ensures Param(c1, rootParam, name) == Param(c2, rootParam, name)
    ensures Past(c1, rootPast, steps, dims) == Past(c2, rootPast, steps, dims)
    ensures GlobalPast(c1, rootGlobalPast, name, steps, dims) == GlobalPast(c2, rootGlobalPast, name, steps, dims)
    ensures SameView(WithSignal(c1, signal), WithSignal(c2, signal))
  {
  }

  /** Nested shifts compose additively: shifting by `a` then `b` is shifting by `a + b`. */
  lemma ShiftsCompose<S>(c: Ctx<S>, a: int, b: int)
    ensures GetInstant(Shifted(Shifted(c, a), b)) == GetInstant(c) + a + b
    ensures SameView(Shifted(Shifted(c, a), b), Shifted(c, a + b))
  {
  }

  /** A shift by zero looks exactly like the context it wraps. */
  lemma ShiftByZero<S>(c: Ctx<S>)
    ensures SameView(Shifted(c, 0), c)
  {
  }

  /** Every chain of shifts looks like its root under one shift by the chain's total offset. */
  lemma Flatten<S>(c: Ctx<S>)
    ensures SameView(c, Shifted(RootOf(c), Sum(Shifts(c))))
  {
  }
}
