/**
 Adaptive analyst weights: the tilt off the static prior, the projection onto the bounded simplex, the
 six-decimal repair, and the weekly recursion. The real exponential and powers are parameters.
 */
module AdaptiveWeights {
  import opened Prelude
  import opened Sums
  import opened Rounding

  /** One value per analyst. */
  datatype Triple = Triple(fundamentals: real, news: real, technical: real) {
    function Sum(): real { fundamentals + news + technical }

    predicate AtMost(other: Triple) {
      fundamentals <= other.fundamentals && news <= other.news && technical <= other.technical
    }

    predicate Positive() { fundamentals > 0.0 && news > 0.0 && technical > 0.0 }

    predicate NonNegative() { fundamentals >= 0.0 && news >= 0.0 && technical >= 0.0 }

    function Minus(other: Triple): Triple {
      Triple(fundamentals - other.fundamentals, news - other.news, technical - other.technical)
    }

    /** Every component within `d` of the other's. */
    predicate Near(other: Triple, d: real) {
      Abs(fundamentals - other.fundamentals) <= d && Abs(news - other.news) <= d
      && Abs(technical - other.technical) <= d
    }
  }

  function Each(x: real): Triple { Triple(x, x, x) }

  // ----- projection ----------------------------------------------------------------

  function Max(x: real, y: real): real { if x >= y then x else y }

  function Min(x: real, y: real): real { if x <= y then x else y }

  function Clip(x: real, lo: real, hi: real): real { Min(Max(x, lo), hi) }

  function ClipAll(w: Triple, lo: Triple, hi: Triple): Triple {
    Triple(Clip(w.fundamentals, lo.fundamentals, hi.fundamentals), Clip(w.news, lo.news, hi.news),
           Clip(w.technical, lo.technical, hi.technical))
  }

  /** `w + gap * room / total`, the slack-proportional correction of one component. */
  function Corrected(w: real, gap: real, room: real, total: real): real
    requires total != 0.0
  {
    w + gap * room / total
  }

  function CorrectAll(w: Triple, gap: real, room: Triple): Triple
    requires room.Sum() != 0.0
  {
    var total := room.Sum();
    Triple(Corrected(w.fundamentals, gap, room.fundamentals, total), Corrected(w.news, gap, room.news, total),
           Corrected(w.technical, gap, room.technical, total))
  }

  /** Restores the sum to one in one pass; the division must be possible. */
  function Redistribute(w: Triple, lo: Triple, hi: Triple): Triple
    requires w.Sum() < 1.0 ==> hi.Minus(w).Sum() != 0.0
    requires w.Sum() > 1.0 ==> w.Minus(lo).Sum() != 0.0
  {
    if w.Sum() < 1.0 then CorrectAll(w, 1.0 - w.Sum(), hi.Minus(w))
    else if w.Sum() > 1.0 then CorrectAll(w, -(w.Sum() - 1.0), w.Minus(lo))
    else w
  }

  function ShiftLo(prev: Triple, floor: real, shift: real): Triple {
    Triple(Max(floor, prev.fundamentals - shift), Max(floor, prev.news - shift), Max(floor, prev.technical - shift))
  }

  function ShiftHi(prev: Triple, shift: real): Triple {
    Triple(prev.fundamentals + shift, prev.news + shift, prev.technical + shift)
  }

  predicate Feasible(lo: Triple, hi: Triple) {
    lo.Sum() <= 1.0 <= hi.Sum() && lo.AtMost(hi)
  }

  /** The shift bounds are infeasible and are dropped for one week. */
  predicate Jumps(prev: Triple, floor: real, shift: real) {
    !Feasible(ShiftLo(prev, floor, shift), ShiftHi(prev, shift))
  }

  function Lower(prev: Triple, floor: real, shift: real): Triple {
    if Jumps(prev, floor, shift) then Each(floor) else ShiftLo(prev, floor, shift)
  }

  function Upper(prev: Triple, floor: real, shift: real): Triple {
    if Jumps(prev, floor, shift) then Each(1.0) else ShiftHi(prev, shift)
  }

  lemma ShareOfRoom(gap: real, room: real, total: real)
    requires room >= 0.0 && total > 0.0 && 0.0 <= gap <= total
    ensures 0.0 <= gap * room / total <= room
  {
    var k := gap / total;
    assert gap * room / total == k * room;
    assert k * room >= 0.0 && (1.0 - k) * room >= 0.0;
  }

  /** A proportional correction that is no larger than the room stays within the room. */
  lemma CorrectionFits(w: real, gap: real, room: real, total: real)
    requires room >= 0.0 && total > 0.0 && 0.0 <= gap <= total
    ensures w <= Corrected(w, gap, room, total) <= w + room
    ensures w - room <= Corrected(w, -gap, room, total) <= w
  {
    var part := gap * room / total;
    ShareOfRoom(gap, room, total);
    assert (-gap) * room / total == -part;
  }

  lemma CorrectionsAdd(w: Triple, gap: real, room: Triple)
    requires room.Sum() != 0.0
    ensures CorrectAll(w, gap, room).Sum() == w.Sum() + gap
  {
    var total := room.Sum();
    var a, b, c := gap * room.fundamentals / total, gap * room.news / total, gap * room.technical / total;
    assert a + b + c == gap * (room.fundamentals + room.news + room.technical) / total == gap;
  }

  /** One pass suffices: between feasible bounds the result sums to one and breaches no bound. */
  lemma RedistributeFits(w: Triple, lo: Triple, hi: Triple)
    requires Feasible(lo, hi) && lo.AtMost(w) && w.AtMost(hi)
    ensures w.Sum() < 1.0 ==> hi.Minus(w).Sum() != 0.0
    ensures w.Sum() > 1.0 ==> w.Minus(lo).Sum() != 0.0
    ensures var r := Redistribute(w, lo, hi); r.Sum() == 1.0 && lo.AtMost(r) && r.AtMost(hi)
  {
    var s := w.Sum();
    if s < 1.0 {
      var room := hi.Minus(w);
      CorrectionsAdd(w, 1.0 - s, room);
      CorrectionFits(w.fundamentals, 1.0 - s, room.fundamentals, room.Sum());
      CorrectionFits(w.news, 1.0 - s, room.news, room.Sum());
      CorrectionFits(w.technical, 1.0 - s, room.technical, room.Sum());
    } else if s > 1.0 {
      var room := w.Minus(lo);
      CorrectionsAdd(w, -(s - 1.0), room);
      CorrectionFits(w.fundamentals, s - 1.0, room.fundamentals, room.Sum());
      CorrectionFits(w.news, s - 1.0, room.news, room.Sum());
      CorrectionFits(w.technical, s - 1.0, room.technical, room.Sum());
    }
  }

  lemma BoundsFeasible(prev: Triple, floor: real, shift: real)
    requires 3.0 * floor <= 1.0
    ensures Feasible(Lower(prev, floor, shift), Upper(prev, floor, shift))
  {
  }

  /** The projection before rounding. The configuration guarantees three floors fit into one. */
  function Project(target: Triple, prev: Triple, floor: real, shift: real): Triple
    requires 3.0 * floor <= 1.0
  {
    var lo, hi := Lower(prev, floor, shift), Upper(prev, floor, shift);
    var w := ClipAll(target, lo, hi);
    BoundsFeasible(prev, floor, shift);
    RedistributeFits(w, lo, hi);
    Redistribute(w, lo, hi)
  }

  /**
   For every target and every previous weights, in both branches: the projection sums to one with every component
   inside its bounds, and a target that already does is returned unchanged.
   */
  lemma ProjectionOnSimplex(target: Triple, prev: Triple, floor: real, shift: real)
    requires 3.0 * floor <= 1.0
    ensures var r, lo, hi := Project(target, prev, floor, shift), Lower(prev, floor, shift), Upper(prev, floor, shift);
      && r.Sum() == 1.0 && lo.AtMost(r) && r.AtMost(hi) && Each(floor).AtMost(r)
      && (target.Sum() == 1.0 && lo.AtMost(target) && target.AtMost(hi) ==> r == target)
  {
    BoundsFeasible(prev, floor, shift);
    RedistributeFits(ClipAll(target, Lower(prev, floor, shift), Upper(prev, floor, shift)),
                     Lower(prev, floor, shift), Upper(prev, floor, shift));
  }

  /** The bounds in full: the shift around the previous weights, above the floor, unless no sum of one fits. */
  lemma BoundsExactly(prev: Triple, floor: real, shift: real)
    requires shift >= 0.0
    ensures var lo := Triple(Max(floor, prev.fundamentals - shift), Max(floor, prev.news - shift),
                             Max(floor, prev.technical - shift));
      var hi := Triple(prev.fundamentals + shift, prev.news + shift, prev.technical + shift);
      if lo.fundamentals + lo.news + lo.technical <= 1.0 <= hi.fundamentals + hi.news + hi.technical
         && floor <= hi.fundamentals && floor <= hi.news && floor <= hi.technical
      then Lower(prev, floor, shift) == lo && Upper(prev, floor, shift) == hi
      else Lower(prev, floor, shift) == Triple(floor, floor, floor)
           && Upper(prev, floor, shift) == Triple(1.0, 1.0, 1.0)
  {
  }

  /** `w` is the point between the bounds that is nearest to `t`. */
  predicate Nearest(w: real, t: real, lo: real, hi: real) {
    lo <= w <= hi && (w < t ==> w == hi) && (w > t ==> w == lo)
  }

  /** Two corrections are in the ratio of the room they have. */
  predicate InProportion(moved: real, room: real, moved': real, room': real) {
    Times(moved, room') == Times(moved', room)
  }

  lemma CorrectedInProportion(w: real, room: real, w': real, room': real, gap: real, total: real)
    requires total != 0.0
    ensures InProportion(Corrected(w, gap, room, total) - w, room, Corrected(w', gap, room', total) - w', room')
  {
    var k := gap / total;
    assert gap * room / total == k * room && gap * room' / total == k * room';
    assert k * room * room' == k * room' * room;
  }

  /** Every component goes to `r` from the nearest point, all in proportion to their room. */
  predicate Spread(r: Triple, w: Triple, room: Triple) {
    && InProportion(r.fundamentals - w.fundamentals, room.fundamentals, r.news - w.news, room.news)
    && InProportion(r.news - w.news, room.news, r.technical - w.technical, room.technical)
    && InProportion(r.technical - w.technical, room.technical, r.fundamentals - w.fundamentals, room.fundamentals)
  }

  lemma CorrectAllSpreads(w: Triple, gap: real, room: Triple)
    requires room.Sum() != 0.0
    ensures Spread(CorrectAll(w, gap, room), w, room)
  {
    var total := room.Sum();
    CorrectedInProportion(w.fundamentals, room.fundamentals, w.news, room.news, gap, total);
    CorrectedInProportion(w.news, room.news, w.technical, room.technical, gap, total);
    CorrectedInProportion(w.technical, room.technical, w.fundamentals, room.fundamentals, gap, total);
  }

  lemma StillSpreads(w: Triple, room: Triple)
    ensures Spread(w, w, room)
  {
  }

  lemma UpwardsSpreads(w: Triple, hi: Triple)
    requires w.AtMost(hi) && w.Sum() < 1.0 <= hi.Sum()
    ensures hi.Minus(w).Sum() != 0.0
    ensures var r := CorrectAll(w, 1.0 - w.Sum(), hi.Minus(w)); w.AtMost(r) && r.AtMost(hi) && Spread(r, w, hi.Minus(w))
  {
    var s, room := w.Sum(), hi.Minus(w);
    CorrectAllSpreads(w, 1.0 - s, room);
    CorrectionFits(w.fundamentals, 1.0 - s, room.fundamentals, room.Sum());
    CorrectionFits(w.news, 1.0 - s, room.news, room.Sum());
    CorrectionFits(w.technical, 1.0 - s, room.technical, room.Sum());
  }

  lemma DownwardsSpreads(w: Triple, lo: Triple)
    requires lo.AtMost(w) && lo.Sum() <= 1.0 < w.Sum()
    ensures w.Minus(lo).Sum() != 0.0
    ensures var r := CorrectAll(w, -(w.Sum() - 1.0), w.Minus(lo));
      lo.AtMost(r) && r.AtMost(w) && Spread(r, w, w.Minus(lo))
  {
    var s, room := w.Sum(), w.Minus(lo);
    CorrectAllSpreads(w, -(s - 1.0), room);
    CorrectionFits(w.fundamentals, s - 1.0, room.fundamentals, room.Sum());
    CorrectionFits(w.news, s - 1.0, room.news, room.Sum());
    CorrectionFits(w.technical, s - 1.0, room.technical, room.Sum());
  }

  lemma ClipIsNearest(t: real, lo: real, hi: real)
    requires lo <= hi
    ensures Nearest(Clip(t, lo, hi), t, lo, hi)
  {
  }

  /**
   The projection in full: each target weight is taken to the nearest point inside its bounds, and what the sum then
   lacks (or has too much) is spread in proportion to the room each weight has left above (or below).
   */
  lemma ProjectionExactly(target: Triple, prev: Triple, floor: real, shift: real) returns (w: Triple)
    requires 3.0 * floor <= 1.0
    ensures var lo, hi, r := Lower(prev, floor, shift), Upper(prev, floor, shift), Project(target, prev, floor, shift);
      && Nearest(w.fundamentals, target.fundamentals, lo.fundamentals, hi.fundamentals)
      && Nearest(w.news, target.news, lo.news, hi.news)
      && Nearest(w.technical, target.technical, lo.technical, hi.technical)
      && r.Sum() == 1.0
      && (w.Sum() <= 1.0 ==> w.AtMost(r) && r.AtMost(hi) && Spread(r, w, hi.Minus(w)))
      && (w.Sum() >= 1.0 ==> lo.AtMost(r) && r.AtMost(w) && Spread(r, w, w.Minus(lo)))
  {
    var lo, hi := Lower(prev, floor, shift), Upper(prev, floor, shift);
    w := ClipAll(target, lo, hi);
    BoundsFeasible(prev, floor, shift);
    ClipIsNearest(target.fundamentals, lo.fundamentals, hi.fundamentals);
    ClipIsNearest(target.news, lo.news, hi.news);
    ClipIsNearest(target.technical, lo.technical, hi.technical);
    RedistributeFits(w, lo, hi);
    if w.Sum() < 1.0 {
      UpwardsSpreads(w, hi);
    } else if w.Sum() > 1.0 {
      DownwardsSpreads(w, lo);
    } else {
      StillSpreads(w, hi.Minus(w));
      StillSpreads(w, w.Minus(lo));
    }
  }

  /** From weights summing to one the jump happens only if some previous weight is below the floor. */
  lemma JumpMeansBelowFloor(prev: Triple, floor: real, shift: real)
    requires prev.Sum() == 1.0 && shift >= 0.0 && Jumps(prev, floor, shift)
    ensures !Each(floor).AtMost(prev)
  {
  }

  // ----- six decimals ----------------------------------------------------------------

  const MICRO := 1000000.0

  function Round6(x: real): real { RoundTo(x, MICRO) }

  /** `max(ANALYSTS, key=...)` takes the first of equal maxima. */
  function AddToLargest(w: Triple, residual: real): Triple {
    if w.fundamentals >= w.news && w.fundamentals >= w.technical then
      w.(fundamentals := Round6(w.fundamentals + residual))
    else if w.news >= w.technical then w.(news := Round6(w.news + residual))
    else w.(technical := Round6(w.technical + residual))
  }

  function RoundExact(w: Triple): Triple {
    var rounded := Triple(Round6(w.fundamentals), Round6(w.news), Round6(w.technical));
    var residual := Round6(1.0 - rounded.Sum());
    if residual != 0.0 then AddToLargest(rounded, residual) else rounded
  }

  function Micro(k: int): real { k as real / MICRO }

  /** Weights counted in millionths. */
  datatype Micros = Micros(f: int, n: int, t: int) {
    function Sum(): int { f + n + t }
    function Value(): Triple { Triple(Micro(f), Micro(n), Micro(t)) }
    predicate AtLeast(floor: int) { f >= floor && n >= floor && t >= floor }
    predicate Near(other: Micros, d: int) {
      -d <= f - other.f <= d && -d <= n - other.n <= d && -d <= t - other.t <= d
    }
    predicate Within(lo: Micros, hi: Micros) {
      lo.f <= f <= hi.f && lo.n <= n <= hi.n && lo.t <= t <= hi.t
    }
  }

  function ToMicros(w: Triple): Micros {
    Micros(RoundHalfEven(w.fundamentals * MICRO), RoundHalfEven(w.news * MICRO), RoundHalfEven(w.technical * MICRO))
  }

  function Patch(m: Micros, residual: int): Micros {
    if residual == 0 then m
    else if m.f >= m.n && m.f >= m.t then m.(f := m.f + residual)
    else if m.n >= m.t then m.(n := m.n + residual)
    else m.(t := m.t + residual)
  }

  /** The repaired weights in millionths. */
  function Repaired(w: Triple): Micros {
    Patch(ToMicros(w), 1000000 - ToMicros(w).Sum())
  }

  /** Sums of grid points are grid points, and rounding leaves them alone. */
  lemma MicroSums(a: int, b: int)
    ensures Micro(a) + Micro(b) == Micro(a + b)
    ensures Round6(Micro(a)) == Micro(a)
    ensures Micro(a) >= Micro(b) <==> a >= b
    ensures Micro(a) == 0.0 <==> a == 0
  {
    assert Micro(a) * MICRO == a as real;
    RoundBetween(a as real, a, a);
  }

  lemma AddToLargestIsPatch(m: Micros, residual: int)
    requires residual != 0
    ensures AddToLargest(m.Value(), Micro(residual)) == Patch(m, residual).Value()
  {
    MicroSums(m.f, m.n);
    MicroSums(m.f, m.t);
    MicroSums(m.n, m.t);
    MicroSums(m.f, residual);
    MicroSums(m.n, residual);
    MicroSums(m.t, residual);
    MicroSums(m.f + residual, 0);
    MicroSums(m.n + residual, 0);
    MicroSums(m.t + residual, 0);
  }

  lemma RoundedIsMicros(w: Triple)
    ensures Triple(Round6(w.fundamentals), Round6(w.news), Round6(w.technical)) == ToMicros(w).Value()
  {
  }

  lemma MicroResidual(m: Micros)
    ensures var gap := 1000000 - m.Sum();
      Round6(1.0 - m.Value().Sum()) == Micro(gap) && (Micro(gap) == 0.0 <==> gap == 0)
  {
    var gap := 1000000 - m.Sum();
    MicroSums(m.f, m.n);
    MicroSums(m.f + m.n, m.t);
    MicroSums(m.Sum(), gap);
    MicroSums(gap, 0);
    assert Micro(1000000) == 1.0;
  }

  lemma MicroTotal(m: Micros)
    requires m.Sum() == 1000000
    ensures m.Value().Sum() == 1.0
  {
    MicroSums(m.f, m.n);
    MicroSums(m.f + m.n, m.t);
    assert Micro(1000000) == 1.0;
  }

  /** The float-style repair is integer repair of millionths. */
  lemma RoundExactIsPatch(w: Triple)
    ensures RoundExact(w) == Repaired(w).Value()
  {
    var m := ToMicros(w);
    var gap := 1000000 - m.Sum();
    RoundedIsMicros(w);
    MicroResidual(m);
    if gap != 0 {
      AddToLargestIsPatch(m, gap);
    }
  }

  /**
   The repair in full: the repaired weights sum to exactly one, and only the largest rounded weight, of equal ones the
   first, may differ from its own rounding to six decimals.
   */
  lemma RepairExactly(w: Triple)
    ensures var r, f, n, t := RoundExact(w), Round6(w.fundamentals), Round6(w.news), Round6(w.technical);
      && r.Sum() == 1.0
      && (r.fundamentals != f ==> f >= n && f >= t && r.news == n && r.technical == t)
      && (r.news != n ==> n > f && n >= t && r.fundamentals == f && r.technical == t)
      && (r.technical != t ==> t > f && t > n && r.fundamentals == f && r.news == n)
  {
    var m, r := ToMicros(w), Repaired(w);
    RoundExactIsPatch(w);
    RoundedIsMicros(w);
    MicroSums(m.f, m.n);
    MicroSums(m.f, m.t);
    MicroSums(m.n, m.f);
    MicroSums(m.n, m.t);
    MicroSums(m.t, m.f);
    MicroSums(m.t, m.n);
    MicroTotal(r);
  }

  lemma ScaledSum(w: Triple)
    requires w.Sum() == 1.0
    ensures w.fundamentals * MICRO + w.news * MICRO + w.technical * MICRO == MICRO
  {
  }

  /** Rounding a point of the simplex leaves a residual of at most one millionth. */
  lemma ResidualSmall(w: Triple)
    requires w.Sum() == 1.0
    ensures -1 <= 1000000 - ToMicros(w).Sum() <= 1
  {
    ScaledSum(w);
    RoundNear(w.fundamentals * MICRO);
    RoundNear(w.news * MICRO);
    RoundNear(w.technical * MICRO);
  }

  lemma MicroBetween(x: real, lo: int, hi: int)
    ensures Micro(lo) <= x ==> lo <= RoundHalfEven(x * MICRO)
    ensures x <= Micro(hi) ==> RoundHalfEven(x * MICRO) <= hi
  {
    RoundBetween(x * MICRO, lo, hi);
  }

  /** So it does between grid bounds, and stays inside them. */
  lemma RoundingResidual(w: Triple, lo: Micros, hi: Micros)
    requires w.Sum() == 1.0 && lo.Value().AtMost(w) && w.AtMost(hi.Value())
    ensures -1 <= 1000000 - ToMicros(w).Sum() <= 1
    ensures ToMicros(w).Within(lo, hi)
  {
    ResidualSmall(w);
    MicroBetween(w.fundamentals, lo.f, hi.f);
    MicroBetween(w.news, lo.n, hi.n);
    MicroBetween(w.technical, lo.t, hi.t);
  }

  /** The repaired weights sum to exactly one and stay on or above any floor that fits three times. */
  lemma PatchFits(m: Micros, floor: int)
    requires m.AtLeast(floor) && 3 * floor <= 1000000 && -1 <= 1000000 - m.Sum() <= 1
    ensures var r := Patch(m, 1000000 - m.Sum());
      r.Sum() == 1000000 && r.AtLeast(floor) && r.Near(m, 1)
  {
  }

  // ----- week after week --------------------------------------------------------------

  /** The weights of one adaptive week. */
  function Update(target: Triple, prev: Triple, floor: real, shift: real): Triple
    requires 3.0 * floor <= 1.0
  {
    RoundExact(Project(target, prev, floor, shift))
  }

  /** Stored weights: millionths that sum to one million, none below the floor. */
  predicate Stored(m: Micros, floor: int) {
    m.Sum() == 1000000 && m.AtLeast(floor)
  }

  function GridLo(m: Micros, floor: int, shift: int): Micros {
    Micros(if floor >= m.f - shift then floor else m.f - shift,
           if floor >= m.n - shift then floor else m.n - shift,
           if floor >= m.t - shift then floor else m.t - shift)
  }

  lemma GridBounds(m: Micros, floor: int, shift: nat)
    requires Stored(m, floor)
    ensures !Jumps(m.Value(), Micro(floor), Micro(shift))
    ensures ShiftLo(m.Value(), Micro(floor), Micro(shift)) == GridLo(m, floor, shift).Value()
    ensures ShiftHi(m.Value(), Micro(shift)) == Micros(m.f + shift, m.n + shift, m.t + shift).Value()
  {
  }

  /** The projection from stored weights lies between grid bounds. */
  lemma ProjectBetweenGridBounds(target: Triple, m: Micros, floor: int, shift: nat)
    requires Stored(m, floor)
    ensures 3.0 * Micro(floor) <= 1.0
    ensures var w := Project(target, m.Value(), Micro(floor), Micro(shift));
      && w.Sum() == 1.0 && GridLo(m, floor, shift).Value().AtMost(w)
      && w.AtMost(Micros(m.f + shift, m.n + shift, m.t + shift).Value())
  {
    assert 3 * floor <= 1000000;
    GridBounds(m, floor, shift);
    ProjectionOnSimplex(target, m.Value(), Micro(floor), Micro(shift));
  }

  lemma PatchedStored(rounded: Micros, m: Micros, floor: int, shift: nat) returns (next: Micros)
    requires Stored(m, floor) && -1 <= 1000000 - rounded.Sum() <= 1
    requires rounded.Within(GridLo(m, floor, shift), Micros(m.f + shift, m.n + shift, m.t + shift))
    ensures next == Patch(rounded, 1000000 - rounded.Sum()) && Stored(next, floor) && next.Near(m, shift + 1)
  {
    PatchFits(rounded, floor);
    next := Patch(rounded, 1000000 - rounded.Sum());
  }

  /** Rounding and repairing such a point gives stored weights close to the previous ones. */
  lemma RepairKeepsStored(w: Triple, m: Micros, floor: int, shift: nat) returns (next: Micros)
    requires Stored(m, floor) && w.Sum() == 1.0
    requires GridLo(m, floor, shift).Value().AtMost(w)
    requires w.AtMost(Micros(m.f + shift, m.n + shift, m.t + shift).Value())
    ensures next == Repaired(w) && Stored(next, floor) && next.Near(m, shift + 1)
  {
    RoundingResidual(w, GridLo(m, floor, shift), Micros(m.f + shift, m.n + shift, m.t + shift));
    next := PatchedStored(ToMicros(w), m, floor, shift);
  }

  /**
   One week from stored weights, whatever the target: the new weights are stored weights again, each moved by at
   most the shift plus one millionth, and the infeasible-bounds jump is not taken.
   */
  lemma UpdateKeepsStored(target: Triple, m: Micros, floor: int, shift: nat) returns (next: Micros)
    requires Stored(m, floor)
    ensures 3.0 * Micro(floor) <= 1.0
    ensures Update(target, m.Value(), Micro(floor), Micro(shift)) == next.Value()
    ensures Stored(next, floor) && next.Near(m, shift + 1)
    ensures !Jumps(m.Value(), Micro(floor), Micro(shift))
  {
    GridBounds(m, floor, shift);
    ProjectBetweenGridBounds(target, m, floor, shift);
    var w := Project(target, m.Value(), Micro(floor), Micro(shift));
    RoundExactIsPatch(w);
    next := RepairKeepsStored(w, m, floor, shift);
  }

  lemma MicroNear(x: real, k: int)
    requires -1.5 <= k as real - x * MICRO <= 1.5
    ensures Abs(Micro(k) - x) <= 1.5 / MICRO
  {
  }

  /** Rounding and repair move no weight by more than one and a half millionths. */
  lemma RepairNear(w: Triple, m: Micros)
    requires m == Repaired(w) && -1 <= 1000000 - ToMicros(w).Sum() <= 1
    ensures m.Value().Near(w, 1.5 / MICRO)
  {
    RoundNear(w.fundamentals * MICRO);
    RoundNear(w.news * MICRO);
    RoundNear(w.technical * MICRO);
    MicroNear(w.fundamentals, m.f);
    MicroNear(w.news, m.n);
    MicroNear(w.technical, m.t);
  }

  lemma NearStep(m: Triple, w: Triple, prev: Triple, shift: real, d: real)
    requires m.Near(w, d) && prev.Minus(Each(shift)).AtMost(w) && w.AtMost(ShiftHi(prev, shift))
    ensures m.Near(prev, shift + d)
  {
  }

  lemma AboveFloor(w: Triple, floor: int)
    requires Each(Micro(floor)).AtMost(w)
    ensures ToMicros(w).AtLeast(floor)
  {
    MicroBetween(w.fundamentals, floor, 0);
    MicroBetween(w.news, floor, 0);
    MicroBetween(w.technical, floor, 0);
  }

  lemma PatchStored(rounded: Micros, floor: int) returns (m: Micros)
    requires rounded.AtLeast(floor) && 3 * floor <= 1000000 && -1 <= 1000000 - rounded.Sum() <= 1
    ensures m == Patch(rounded, 1000000 - rounded.Sum()) && Stored(m, floor)
  {
    PatchFits(rounded, floor);
    m := Patch(rounded, 1000000 - rounded.Sum());
  }

  /** Repairing any point of the simplex above the floor gives stored weights close to it. */
  lemma RepairFromFloor(w: Triple, floor: int) returns (m: Micros)
    requires 3 * floor <= 1000000 && w.Sum() == 1.0 && Each(Micro(floor)).AtMost(w)
    ensures m == Repaired(w) && Stored(m, floor) && m.Value().Near(w, 1.5 / MICRO)
  {
    ResidualSmall(w);
    AboveFloor(w, floor);
    m := PatchStored(ToMicros(w), floor);
    RepairNear(w, m);
  }

  /**
   One week from any previous weights at all: the result is stored weights, and unless the bounds are infeasible
   each weight moves by at most the shift plus one and a half millionths.
   */
  lemma AnyUpdateIsStored(target: Triple, prev: Triple, floor: int, shift: real) returns (m: Micros)
    requires 3 * floor <= 1000000
    ensures 3.0 * Micro(floor) <= 1.0
    ensures Update(target, prev, Micro(floor), shift) == m.Value() && Stored(m, floor)
    ensures !Jumps(prev, Micro(floor), shift) ==> m.Value().Near(prev, shift + 1.5 / MICRO)
  {
    assert 3.0 * Micro(floor) <= 1.0;
    var w := Project(target, prev, Micro(floor), shift);
    ProjectionOnSimplex(target, prev, Micro(floor), shift);
    RoundExactIsPatch(w);
    m := RepairFromFloor(w, floor);
    if !Jumps(prev, Micro(floor), shift) {
      NearStep(m.Value(), w, prev, shift, 1.5 / MICRO);
    }
  }

  /** A week either adapts towards a target or falls back to the static prior. */
  datatype Week = Adapt(target: Triple) | FallBack

  function NextWeights(prev: Triple, week: Week, statics: Triple, floor: real, shift: real): Triple
    requires 3.0 * floor <= 1.0
  {
    match week
    case Adapt(target) => Update(target, prev, floor, shift)
    case FallBack => statics
  }

  function After(start: Triple, weeks: seq<Week>, statics: Triple, floor: real, shift: real): Triple
    requires 3.0 * floor <= 1.0
  {
    if weeks == [] then start else
      NextWeights(After(start, weeks[..|weeks| - 1], statics, floor, shift), weeks[|weeks| - 1], statics, floor, shift)
  }

  /** The last of the weeks fell back to the static prior. */
  predicate FellBack(weeks: seq<Week>) { weeks != [] && weeks[|weeks| - 1].FallBack? }

  /**
   After any number of weeks, with any targets, fallbacks, start and static prior: an adaptive week leaves stored
   weights (sum exactly one, no weight below the floor, six decimals) and a fallback leaves the prior. So the next
   week jumps exactly if no week has passed and the start makes it, or the last one fell back and the prior does.
   */
  lemma WeeksKeepStored(start: Triple, weeks: seq<Week>, statics: Triple, floor: int, shift: nat) returns (m: Micros)
    requires 3 * floor <= 1000000
    ensures 3.0 * Micro(floor) <= 1.0
    ensures var w := After(start, weeks, statics, Micro(floor), Micro(shift));
      && (weeks != [] ==> if FellBack(weeks) then w == statics else w == m.Value() && Stored(m, floor))
      && (Jumps(w, Micro(floor), Micro(shift)) <==>
            (weeks == [] && Jumps(start, Micro(floor), Micro(shift)))
            || (FellBack(weeks) && Jumps(statics, Micro(floor), Micro(shift))))
  {
    m := Micros(0, 0, 0);
    assert 3.0 * Micro(floor) <= 1.0;
    if weeks != [] && !FellBack(weeks) {
      var before := After(start, weeks[..|weeks| - 1], statics, Micro(floor), Micro(shift));
      m := AnyUpdateIsStored(weeks[|weeks| - 1].target, before, floor, Micro(shift));
      GridBounds(m, floor, shift);
    }
  }

  /** Adaptive weeks only. */
  function AdaptAll(start: Triple, targets: seq<Triple>, floor: real, shift: real): Triple
    requires 3.0 * floor <= 1.0
  {
    if targets == [] then start else
      Update(targets[|targets| - 1], AdaptAll(start, targets[..|targets| - 1], floor, shift), floor, shift)
  }

  function Drift(weeks: nat, step: nat): nat { weeks * step }

  lemma DriftStep(weeks: nat, step: nat)
    ensures Drift(weeks + 1, step) == Drift(weeks, step) + step
  {
  }

  /** Between fallbacks the drift is bounded: k adaptive weeks move no weight by more than k * (shift + 1e-6). */
  lemma {:induction false} DriftBounded(start: Micros, targets: seq<Triple>, floor: int, shift: nat) returns (m: Micros)
    requires Stored(start, floor)
    ensures 3.0 * Micro(floor) <= 1.0
    ensures AdaptAll(start.Value(), targets, Micro(floor), Micro(shift)) == m.Value()
    ensures Stored(m, floor) && m.Near(start, Drift(|targets|, shift + 1))
    decreases |targets|
  {
    assert 3 * floor <= 1000000;
    if targets == [] {
      m := start;
    } else {
      var mid := DriftBounded(start, targets[..|targets| - 1], floor, shift);
      m := UpdateKeepsStored(targets[|targets| - 1], mid, floor, shift);
      DriftStep(|targets| - 1, shift + 1);
    }
  }

  /** The anchor for the next week: recovered weights that look like a simplex point, else the static prior. */
  function Anchor(candidate: Triple, statics: Triple): Triple {
    if candidate.Positive() && 0.99 < candidate.Sum() < 1.01 then candidate else statics
  }

  /** Without recovered weights the anchor is the prior. */
  function AnchorOn(recovered: Option<Triple>, statics: Triple): Triple {
    match recovered
    case None => statics
    case Some(candidate) => Anchor(candidate, statics)
  }

  /** Stored weights with a positive floor always survive the sanity check, so weeks chain on their own weights. */
  lemma AnchorKeepsStored(m: Micros, statics: Triple, floor: int)
    requires Stored(m, floor) && floor >= 1
    ensures Anchor(m.Value(), statics) == m.Value()
  {
  }

  // ----- the tilt ---------------------------------------------------------------------

  /** The exponential is a parameter: positive, increasing, one at zero. */
  ghost predicate ExpLike(exp: real -> real) {
    && exp(0.0) == 1.0
    && (forall x :: exp(x) > 0.0)
    && (forall x, y :: x < y ==> exp(x) < exp(y))
  }

  function RawTilt(ewics: Triple, statics: Triple, tau: real, exp: real -> real): Triple
    requires tau != 0.0
  {
    Triple(Times(statics.fundamentals, exp(ewics.fundamentals / tau)), Times(statics.news, exp(ewics.news / tau)),
           Times(statics.technical, exp(ewics.technical / tau)))
  }

  function TiltTargets(ewics: Triple, statics: Triple, tau: real, exp: real -> real): Triple
    requires tau != 0.0 && RawTilt(ewics, statics, tau, exp).Sum() != 0.0
  {
    var raw := RawTilt(ewics, statics, tau, exp);
    var total := raw.Sum();
    Triple(Quotient(raw.fundamentals, total), Quotient(raw.news, total), Quotient(raw.technical, total))
  }

  lemma TiltSign(ewic: real, prior: real, tau: real, exp: real -> real)
    requires tau > 0.0 && prior >= 0.0 && ExpLike(exp)
    ensures Times(prior, exp(ewic / tau)) >= 0.0
    ensures Times(prior, exp(ewic / tau)) > 0.0 <==> prior > 0.0
  {
    TimesSign(prior, exp(ewic / tau));
  }

  /** A prior without negative components that is not all zero can be tilted. */
  lemma TiltPossible(ewics: Triple, statics: Triple, tau: real, exp: real -> real)
    requires tau > 0.0 && statics.NonNegative() && statics.Sum() > 0.0 && ExpLike(exp)
    ensures RawTilt(ewics, statics, tau, exp).NonNegative() && RawTilt(ewics, statics, tau, exp).Sum() > 0.0
  {
    TiltSign(ewics.fundamentals, statics.fundamentals, tau, exp);
    TiltSign(ewics.news, statics.news, tau, exp);
    TiltSign(ewics.technical, statics.technical, tau, exp);
  }

  lemma SharesOfTotal(a: real, b: real, c: real)
    requires a + b + c > 0.0 && a >= 0.0 && b >= 0.0 && c >= 0.0
    ensures var t := a + b + c;
      && Quotient(a, t) >= 0.0 && Quotient(b, t) >= 0.0 && Quotient(c, t) >= 0.0
      && (Quotient(a, t) > 0.0 <==> a > 0.0) && (Quotient(b, t) > 0.0 <==> b > 0.0)
      && (Quotient(c, t) > 0.0 <==> c > 0.0)
      && Quotient(a, t) + Quotient(b, t) + Quotient(c, t) == 1.0
  {
    var t := a + b + c;
    QuotientAdds(a, b, t);
    QuotientAdds(a + b, c, t);
    QuotientOrder(0.0, a, t);
    QuotientOrder(0.0, b, t);
    QuotientOrder(0.0, c, t);
  }

  /** The components that are positive are the same ones. */
  predicate SameSupport(t: Triple, p: Triple) {
    && (t.fundamentals > 0.0 <==> p.fundamentals > 0.0) && (t.news > 0.0 <==> p.news > 0.0)
    && (t.technical > 0.0 <==> p.technical > 0.0)
  }

  /**
   Targets are non-negative, positive where the prior is, and sum to one; zero evidence reproduces a prior that sums
   to one.
   */
  lemma TiltIsSimplexPoint(ewics: Triple, statics: Triple, tau: real, exp: real -> real)
    requires tau > 0.0 && statics.NonNegative() && statics.Sum() > 0.0 && ExpLike(exp)
    ensures RawTilt(ewics, statics, tau, exp).Sum() > 0.0
    ensures var t := TiltTargets(ewics, statics, tau, exp);
      && t.NonNegative() && SameSupport(t, statics) && t.Sum() == 1.0
      && (ewics == Each(0.0) && statics.Sum() == 1.0 ==> t == statics)
  {
    TiltPossible(ewics, statics, tau, exp);
    TiltSign(ewics.fundamentals, statics.fundamentals, tau, exp);
    TiltSign(ewics.news, statics.news, tau, exp);
    TiltSign(ewics.technical, statics.technical, tau, exp);
    var raw := RawTilt(ewics, statics, tau, exp);
    SharesOfTotal(raw.fundamentals, raw.news, raw.technical);
    if ewics == Each(0.0) && statics.Sum() == 1.0 {
      assert 0.0 / tau == 0.0;
      assert raw == statics;
    }
  }

  /** The targets of two analysts are in the ratio of prior times exp(EWIC / tau). */
  predicate TiltedPair(t: real, p: real, e: real, t': real, p': real, e': real, tau: real, exp: real -> real)
    requires tau != 0.0
  {
    Times(t, Times(p', exp(e' / tau))) == Times(t', Times(p, exp(e / tau)))
  }

  predicate TiltedBy(t: Triple, p: Triple, e: Triple, tau: real, exp: real -> real)
    requires tau != 0.0
  {
    && TiltedPair(t.fundamentals, p.fundamentals, e.fundamentals, t.news, p.news, e.news, tau, exp)
    && TiltedPair(t.news, p.news, e.news, t.technical, p.technical, e.technical, tau, exp)
    && TiltedPair(t.technical, p.technical, e.technical, t.fundamentals, p.fundamentals, e.fundamentals, tau, exp)
  }

  lemma SharesInRatio(x: real, y: real, total: real)
    requires total != 0.0
    ensures Times(Quotient(x, total), y) == Times(Quotient(y, total), x)
  {
    assert x / total * y == y / total * x;
  }

  lemma ShareOfWhole(t: real, t': real, t'': real, w: real, w': real, w'': real)
    requires t + t' + t'' == 1.0 && w + w' + w'' != 0.0
    requires Times(t, w') == Times(t', w) && Times(t, w'') == Times(t'', w)
    ensures t == Quotient(w, w + w' + w'')
  {
    var total := w + w' + w'';
    assert t * total == t * w + t' * w + t'' * w == w;
    assert t * total / total == t;
  }

  lemma SumOfShares(x: real, y: real, z: real)
    requires x + y + z != 0.0
    ensures Quotient(x, x + y + z) + Quotient(y, x + y + z) + Quotient(z, x + y + z) == 1.0
  {
    var total := x + y + z;
    assert x / total + y / total + z / total == total / total;
  }

  /**
   What the targets are, for any prior that can be tilted: the only weights that sum to one and are, for every pair of
   analysts, in the ratio of prior times exp(EWIC / tau).
   */
  lemma TiltExactly(ewics: Triple, statics: Triple, tau: real, exp: real -> real, t: Triple)
    requires tau != 0.0 && RawTilt(ewics, statics, tau, exp).Sum() != 0.0
    ensures t == TiltTargets(ewics, statics, tau, exp) <==>
      t.Sum() == 1.0 && TiltedBy(t, statics, ewics, tau, exp)
  {
    var raw := RawTilt(ewics, statics, tau, exp);
    var f, n, c, total := raw.fundamentals, raw.news, raw.technical, raw.Sum();
    if t == TiltTargets(ewics, statics, tau, exp) {
      SumOfShares(f, n, c);
      SharesInRatio(f, n, total);
      SharesInRatio(n, c, total);
      SharesInRatio(c, f, total);
    } else if t.Sum() == 1.0 && TiltedBy(t, statics, ewics, tau, exp) {
      ShareOfWhole(t.fundamentals, t.news, t.technical, f, n, c);
      ShareOfWhole(t.news, t.technical, t.fundamentals, n, c, f);
      ShareOfWhole(t.technical, t.fundamentals, t.news, c, f, n);
    }
  }

  lemma Ratio(s: real, e: real, total: real)
    requires s > 0.0 && total > 0.0
    ensures Quotient(Quotient(Times(s, e), total), s) == Quotient(e, total)
  {
  }

  /** The target-to-prior ratio of one analyst. */
  function TiltRatio(prior: real, ewic: real, tau: real, exp: real -> real, total: real): real
    requires prior > 0.0 && tau > 0.0 && total > 0.0
  {
    Quotient(Quotient(Times(prior, exp(ewic / tau)), total), prior)
  }

  predicate SameOrder(x: real, y: real, u: real, v: real) { (x < y <==> u < v) && (x == y <==> u == v) }

  lemma RatioOrder(s: real, x: real, s': real, y: real, tau: real, exp: real -> real, total: real)
    requires s > 0.0 && s' > 0.0 && tau > 0.0 && total > 0.0 && ExpLike(exp)
    ensures x < y <==> TiltRatio(s, x, tau, exp, total) < TiltRatio(s', y, tau, exp, total)
  {
    Ratio(s, exp(x / tau), total);
    Ratio(s', exp(y / tau), total);
    QuotientOrder(x, y, tau);
    QuotientOrder(exp(x / tau), exp(y / tau), total);
  }

  lemma RatioSameOrder(s: real, x: real, s': real, y: real, tau: real, exp: real -> real, total: real)
    requires s > 0.0 && s' > 0.0 && tau > 0.0 && total > 0.0 && ExpLike(exp)
    ensures SameOrder(x, y, TiltRatio(s, x, tau, exp, total), TiltRatio(s', y, tau, exp, total))
  {
    RatioOrder(s, x, s', y, tau, exp, total);
    RatioOrder(s', y, s, x, tau, exp, total);
  }

  /** The evidence decides: target-to-prior ratios are ordered exactly like the EWICs, ties included. */
  lemma TiltFollowsEvidence(ewics: Triple, statics: Triple, tau: real, exp: real -> real)
    requires tau > 0.0 && statics.NonNegative() && statics.Sum() > 0.0 && ExpLike(exp)
    ensures RawTilt(ewics, statics, tau, exp).Sum() > 0.0
    ensures var t, e, p := TiltTargets(ewics, statics, tau, exp), ewics, statics;
      && (p.fundamentals > 0.0 && p.news > 0.0 ==>
            SameOrder(e.fundamentals, e.news, Quotient(t.fundamentals, p.fundamentals), Quotient(t.news, p.news)))
      && (p.news > 0.0 && p.technical > 0.0 ==>
            SameOrder(e.news, e.technical, Quotient(t.news, p.news), Quotient(t.technical, p.technical)))
      && (p.technical > 0.0 && p.fundamentals > 0.0 ==>
            SameOrder(e.technical, e.fundamentals,
                      Quotient(t.technical, p.technical), Quotient(t.fundamentals, p.fundamentals)))
  {
    TiltPossible(ewics, statics, tau, exp);
    var total, e, p := RawTilt(ewics, statics, tau, exp).Sum(), ewics, statics;
    if p.fundamentals > 0.0 && p.news > 0.0 {
      RatioSameOrder(p.fundamentals, e.fundamentals, p.news, e.news, tau, exp, total);
    }
    if p.news > 0.0 && p.technical > 0.0 {
      RatioSameOrder(p.news, e.news, p.technical, e.technical, tau, exp, total);
    }
    if p.technical > 0.0 && p.fundamentals > 0.0 {
      RatioSameOrder(p.technical, e.technical, p.fundamentals, e.fundamentals, tau, exp, total);
    }
  }

  // ----- the rolling mean ---------------------------------------------------------------

  /** `lam ** n`. */
  function Pow(lam: real, n: nat): real {
    if n == 0 then 1.0 else Times(lam, Pow(lam, n - 1))
  }

  lemma {:induction false} PowPositive(lam: real, n: nat)
    requires lam > 0.0
    ensures Pow(lam, n) > 0.0
  {
    if n > 0 {
      PowPositive(lam, n - 1);
      TimesSign(lam, Pow(lam, n - 1));
    }
  }

  /** Numerator and denominator of the mean over a freshest-first series; the weight of an entry is lam ** lag. */
  function Num(ics: seq<Option<real>>, lam: real): real {
    if ics == [] then 0.0 else
      var lag := |ics| - 1;
      Num(ics[..lag], lam) + (if ics[lag].Some? then Times(Pow(lam, lag), ics[lag].value) else 0.0)
  }

  function Den(ics: seq<Option<real>>, lam: real): real {
    if ics == [] then 0.0 else
      var lag := |ics| - 1;
      Den(ics[..lag], lam) + (if ics[lag].Some? then Pow(lam, lag) else 0.0)
  }

  function Mean(ics: seq<Option<real>>, lam: real): Option<real> {
    if Den(ics, lam) > 0.0 then Some(Num(ics, lam) / Den(ics, lam)) else None
  }

  method Ewma(ics: seq<Option<real>>, lam: real) returns (r: Option<real>)
    ensures r == Mean(ics, lam)
  {
    var num, den := 0.0, 0.0;
    for lag := 0 to |ics|
      invariant num == Num(ics[..lag], lam) && den == Den(ics[..lag], lam)
    {
      assert ics[..lag + 1][..lag] == ics[..lag];
      if ics[lag].Some? {
        var w := Pow(lam, lag);
        num := num + Times(w, ics[lag].value);
        den := den + w;
      }
    }
    assert ics[..|ics|] == ics;
    r := if den > 0.0 then Some(num / den) else None;
  }

  function ValidCount(ics: seq<Option<real>>): nat {
    if ics == [] then 0 else ValidCount(ics[..|ics| - 1]) + (if ics[|ics| - 1].Some? then 1 else 0)
  }

  /** The weeks of the series that have a value. */
  function ValidWeeks(ics: seq<Option<real>>): set<int> { set i | 0 <= i < |ics| && ics[i].Some? }

  /** The count is the number of weeks with a value. */
  lemma {:induction false} CountsValidWeeks(ics: seq<Option<real>>)
    ensures ValidCount(ics) == |ValidWeeks(ics)|
  {
    if ics != [] {
      var last := |ics| - 1;
      CountsValidWeeks(ics[..last]);
      if ics[last].Some? {
        assert ValidWeeks(ics) == ValidWeeks(ics[..last]) + {last};
      } else {
        assert ValidWeeks(ics) == ValidWeeks(ics[..last]);
      }
    }
  }

  lemma {:induction false} ValidCounted(ics: seq<Option<real>>, i: nat)
    requires i < |ics| && ics[i].Some?
    ensures ValidCount(ics) > 0
  {
    if i < |ics| - 1 {
      ValidCounted(ics[..|ics| - 1], i);
    }
  }

  lemma {:induction false} DenPositive(ics: seq<Option<real>>, lam: real)
    requires lam > 0.0
    ensures Den(ics, lam) >= 0.0
    ensures Den(ics, lam) > 0.0 <==> ValidCount(ics) > 0
  {
    if ics != [] {
      DenPositive(ics[..|ics| - 1], lam);
      PowPositive(lam, |ics| - 1);
    }
  }

  ghost predicate Between(ics: seq<Option<real>>, lo: real, hi: real) {
    forall i :: 0 <= i < |ics| && ics[i].Some? ==> lo <= ics[i].value <= hi
  }

  lemma MeanStep(lo: real, hi: real, num: real, den: real, w: real, x: real)
    requires w > 0.0 && lo <= x <= hi && Times(lo, den) <= num <= Times(hi, den)
    ensures Times(lo, den + w) <= num + Times(w, x) <= Times(hi, den + w)
  {
    assert lo * w <= w * x <= hi * w;
  }

  lemma {:induction false} NumBetween(ics: seq<Option<real>>, lam: real, lo: real, hi: real)
    requires lam > 0.0 && Between(ics, lo, hi)
    ensures Times(lo, Den(ics, lam)) <= Num(ics, lam) <= Times(hi, Den(ics, lam))
  {
    if ics == [] {
      assert lo * 0.0 == 0.0 == hi * 0.0;
    } else {
      var lag := |ics| - 1;
      NumBetween(ics[..lag], lam, lo, hi);
      PowPositive(lam, lag);
      if ics[lag].Some? {
        MeanStep(lo, hi, Num(ics[..lag], lam), Den(ics[..lag], lam), Pow(lam, lag), ics[lag].value);
      }
    }
  }

  /** The mean exists exactly when some entry is valid, and lies between the smallest and largest valid entry. */
  lemma MeanIsAMean(ics: seq<Option<real>>, lam: real, lo: real, hi: real)
    requires lam > 0.0 && Between(ics, lo, hi)
    ensures Mean(ics, lam).Some? <==> ValidCount(ics) > 0
    ensures Mean(ics, lam).Some? ==> lo <= Mean(ics, lam).value <= hi
  {
    DenPositive(ics, lam);
    if Den(ics, lam) > 0.0 {
      NumBetween(ics, lam, lo, hi);
      QuotientBounds(Num(ics, lam), Den(ics, lam), lo, hi);
    }
  }

  lemma ScaleStep(lam: real, a: real, w: real, x: real)
    ensures Times(lam, a) + Times(Times(lam, w), x) == Times(lam, a + Times(w, x))
    ensures Times(lam, a) + Times(lam, w) == Times(lam, a + w)
  {
  }

  /** A fresh missing week decays every weight alike. */
  lemma {:induction false} MissingWeekScales(ics: seq<Option<real>>, lam: real)
    ensures Num([None] + ics, lam) == Times(lam, Num(ics, lam))
    ensures Den([None] + ics, lam) == Times(lam, Den(ics, lam))
  {
    var longer := [None] + ics;
    if ics == [] {
      assert longer[..0] == [];
      assert lam * 0.0 == 0.0;
    } else {
      var prefix, last, w := ics[..|ics| - 1], ics[|ics| - 1], Pow(lam, |ics| - 1);
      assert longer[..|longer| - 1] == [None] + prefix && longer[|longer| - 1] == last;
      MissingWeekScales(prefix, lam);
      assert Pow(lam, |ics|) == Times(lam, w);
      if last.Some? {
        ScaleStep(lam, Num(prefix, lam), w, last.value);
        ScaleStep(lam, Den(prefix, lam), w, 0.0);
      }
    }
  }

  lemma CancelFactor(lam: real, n: real, d: real)
    requires lam > 0.0 && d > 0.0 && lam * d > 0.0
    ensures Times(lam, n) / Times(lam, d) == n / d
  {
    assert n / d * (lam * d) == lam * n;
  }

  /** So a missing week leaves the mean unchanged. */
  lemma MissingWeekKeepsMean(ics: seq<Option<real>>, lam: real)
    requires lam > 0.0
    ensures Mean([None] + ics, lam) == Mean(ics, lam)
  {
    MissingWeekScales(ics, lam);
    DenPositive(ics, lam);
    if Den(ics, lam) > 0.0 {
      TimesSign(lam, Den(ics, lam));
      CancelFactor(lam, Num(ics, lam), Den(ics, lam));
    } else {
      assert Times(lam, 0.0) == 0.0;
    }
  }

  lemma {:induction false} NumShift(ics: seq<Option<real>>, lam: real, i: nat, d: real)
    requires i < |ics| && ics[i].Some?
    ensures Num(ics[i := Some(ics[i].value + d)], lam) == Num(ics, lam) + Times(Pow(lam, i), d)
    ensures Den(ics[i := Some(ics[i].value + d)], lam) == Den(ics, lam)
  {
    var all, lag := ics[i := Some(ics[i].value + d)], |ics| - 1;
    if i == lag {
      assert all[..lag] == ics[..lag];
      TimesDistributes(Pow(lam, lag), ics[lag].value, d);
    } else {
      NumShift(ics[..lag], lam, i, d);
      assert all[..lag] == ics[..lag][i := Some(ics[i].value + d)];
    }
  }

  lemma {:induction false} PowAdds(lam: real, i: nat, k: nat)
    ensures Pow(lam, i + k) == Times(Pow(lam, k), Pow(lam, i))
  {
    if k > 0 {
      PowAdds(lam, i, k - 1);
      TimesAssociates(lam, Pow(lam, k - 1), Pow(lam, i));
    }
  }

  lemma DivideShift(num: real, den: real, change: real)
    requires den > 0.0
    ensures (num + change) / den - num / den == change / den
  {
  }

  lemma FactorOut(a: real, b: real, d: real, den: real)
    requires den > 0.0
    ensures Times(Times(a, b), d) / den == Times(a, Times(b, d) / den)
  {
    assert a * b * d / den == a * (b * d / den);
  }

  /**
   Older weeks count less: changing the value of a week `k` weeks older moves the mean lam ** k times as far, which
   together with MeanIsAMean fixes the mean.
   */
  lemma OlderWeeksCountLess(ics: seq<Option<real>>, lam: real, i: nat, k: nat, d: real)
    requires lam > 0.0 && i + k < |ics| && ics[i].Some? && ics[i + k].Some?
    ensures var newer, older := ics[i := Some(ics[i].value + d)], ics[i + k := Some(ics[i + k].value + d)];
      && Mean(ics, lam).Some? && Mean(newer, lam).Some? && Mean(older, lam).Some?
      && Mean(older, lam).value - Mean(ics, lam).value
           == Times(Pow(lam, k), Mean(newer, lam).value - Mean(ics, lam).value)
    ensures Pow(lam, 0) == 1.0 && Pow(lam, k + 1) == lam * Pow(lam, k)
  {
    NumShift(ics, lam, i, d);
    NumShift(ics, lam, i + k, d);
    ValidCounted(ics, i);
    DenPositive(ics, lam);
    PowAdds(lam, i, k);
    var num, den := Num(ics, lam), Den(ics, lam);
    DivideShift(num, den, Times(Pow(lam, i), d));
    DivideShift(num, den, Times(Pow(lam, i + k), d));
    FactorOut(Pow(lam, k), Pow(lam, i), d, den);
  }

  // ----- alert streaks --------------------------------------------------------------------

  /** The validated configuration; floor and shift are given in millionths, `lam` is the weekly decay. */
  datatype Policy = Policy(lam: real, minHistory: nat, floor: int, shift: nat, tau: real, alertStreak: nat) {
    predicate Valid() {
      lam > 0.0 && minHistory >= 1 && floor >= 1 && 3 * floor <= 1000000 && tau > 0.0 && alertStreak >= 1
    }
  }

  /** A window counts towards a streak: enough valid weeks and a mean that is not positive. */
  predicate Bad(window: seq<Option<real>>, lam: real, minHistory: nat) {
    ValidCount(window) >= minHistory && Mean(window, lam).Some? && Mean(window, lam).value <= 0.0
  }

  /** The number of most recent windows in a row that are bad. */
  function StreakOf(ics: seq<Option<real>>, lam: real, minHistory: nat): nat {
    if ics == [] || !Bad(ics, lam, minHistory) then 0 else 1 + StreakOf(ics[1..], lam, minHistory)
  }

  /** The streak is the longest unbroken run of bad windows. */
  lemma {:induction false} StreakIsLongest(ics: seq<Option<real>>, lam: real, minHistory: nat, k: nat)
    requires k <= |ics| && forall lag :: 0 <= lag < k ==> Bad(ics[lag..], lam, minHistory)
    requires k < |ics| ==> !Bad(ics[k..], lam, minHistory)
    ensures StreakOf(ics, lam, minHistory) == k
  {
    assert ics[0..] == ics;
    if k > 0 {
      var rest := ics[1..];
      assert forall lag :: 0 <= lag <= |rest| ==> rest[lag..] == ics[lag + 1..];
      forall lag | 0 <= lag < k - 1 ensures Bad(rest[lag..], lam, minHistory) {
        assert Bad(ics[lag + 1..], lam, minHistory);
      }
      StreakIsLongest(rest, lam, minHistory, k - 1);
    }
  }

  /** The length of the longest unbroken run of bad windows, starting with the most recent one. */
  method Streak(ics: seq<Option<real>>, lam: real, minHistory: nat) returns (streak: nat)
    ensures streak <= |ics|
    ensures forall lag :: 0 <= lag < streak ==> Bad(ics[lag..], lam, minHistory)
    ensures streak < |ics| ==> !Bad(ics[streak..], lam, minHistory)
    ensures streak == StreakOf(ics, lam, minHistory)
  {
    streak := 0;
    for lag := 0 to |ics|
      invariant streak == lag
      invariant forall k :: 0 <= k < lag ==> Bad(ics[k..], lam, minHistory)
    {
      var window := ics[lag..];
      if ValidCount(window) < minHistory {
        break;
      }
      var e := Ewma(window, lam);
      if e == None || e.value > 0.0 {
        break;
      }
      streak := streak + 1;
    }
    StreakIsLongest(ics, lam, minHistory, streak);
  }

  datatype Analyst = Fundamentals | News | Technical

  datatype Alert = Alert(analyst: Analyst, streak: nat, ewic: Option<real>)

  function AlertFor(analyst: Analyst, ics: seq<Option<real>>, p: Policy): seq<Alert> {
    var streak := StreakOf(ics, p.lam, p.minHistory);
    if streak >= p.alertStreak then [Alert(analyst, streak, Mean(ics, p.lam))] else []
  }

  lemma {:induction false} StreakStops(ics: seq<Option<real>>, lam: real, minHistory: nat)
    ensures var k := StreakOf(ics, lam, minHistory);
      && k <= |ics| && (forall lag :: 0 <= lag < k ==> Bad(ics[lag..], lam, minHistory))
      && (k < |ics| ==> !Bad(ics[k..], lam, minHistory))
  {
    assert ics[0..] == ics;
    if ics != [] && Bad(ics, lam, minHistory) {
      var rest := ics[1..];
      StreakStops(rest, lam, minHistory);
      assert forall lag :: 0 <= lag <= |rest| ==> rest[lag..] == ics[lag + 1..];
      forall lag | 0 <= lag < StreakOf(ics, lam, minHistory) ensures Bad(ics[lag..], lam, minHistory) {
        assert lag > 0 ==> Bad(rest[lag - 1..], lam, minHistory);
      }
    }
  }

  /** A window that counts towards an alert: enough weeks with a value, and a mean that is not positive. */
  ghost predicate Failing(window: seq<Option<real>>, p: Policy) {
    |ValidWeeks(window)| >= p.minHistory && Mean(window, p.lam).Some? && Mean(window, p.lam).value <= 0.0
  }

  /**
   An alert for an analyst is raised exactly when the most recent windows up to the threshold are all failing; it
   gives the length of the whole unbroken run of failing windows and the present mean.
   */
  lemma AlertExactly(analyst: Analyst, ics: seq<Option<real>>, p: Policy)
    ensures AlertFor(analyst, ics, p) != [] <==>
      p.alertStreak <= |ics| && forall lag :: 0 <= lag < p.alertStreak ==> Failing(ics[lag..], p)
    ensures forall a :: a in AlertFor(analyst, ics, p) ==>
      && AlertFor(analyst, ics, p) == [a] && a.analyst == analyst && a.ewic == Mean(ics, p.lam)
      && a.streak <= |ics| && (forall lag :: 0 <= lag < a.streak ==> Failing(ics[lag..], p))
      && (a.streak < |ics| ==> !Failing(ics[a.streak..], p))
  {
    StreakStops(ics, p.lam, p.minHistory);
    forall lag | 0 <= lag <= |ics| ensures Bad(ics[lag..], p.lam, p.minHistory) <==> Failing(ics[lag..], p) {
      CountsValidWeeks(ics[lag..]);
    }
  }

  method AlertStreak(analyst: Analyst, ics: seq<Option<real>>, p: Policy) returns (alerts: seq<Alert>)
    ensures alerts == AlertFor(analyst, ics, p)
  {
    alerts := [];
    var streak := Streak(ics, p.lam, p.minHistory);
    if streak >= p.alertStreak {
      var ewic := Ewma(ics, p.lam);
      alerts := [Alert(analyst, streak, ewic)];
    }
  }

  // ----- the policy -----------------------------------------------------------------------

  /** One IC series per analyst, freshest report first. */
  datatype History = History(fundamentals: seq<Option<real>>, news: seq<Option<real>>, technical: seq<Option<real>>) {
    predicate LongEnough(weeks: nat) {
      ValidCount(fundamentals) >= weeks && ValidCount(news) >= weeks && ValidCount(technical) >= weeks
    }
  }

  /** The smallest value of a configuration always leaves a mean for every analyst. */
  lemma MeansExist(h: History, p: Policy)
    requires p.Valid() && h.LongEnough(p.minHistory)
    ensures Mean(h.fundamentals, p.lam).Some? && Mean(h.news, p.lam).Some? && Mean(h.technical, p.lam).Some?
  {
    DenPositive(h.fundamentals, p.lam);
    DenPositive(h.news, p.lam);
    DenPositive(h.technical, p.lam);
  }

  function Means(h: History, p: Policy): Triple
    requires p.Valid() && h.LongEnough(p.minHistory)
  {
    MeansExist(h, p);
    Triple(Mean(h.fundamentals, p.lam).value, Mean(h.news, p.lam).value, Mean(h.technical, p.lam).value)
  }

  /** The tilted prior can be normalized; otherwise the policy divides by zero. */
  predicate CanTilt(h: History, statics: Triple, p: Policy, exp: real -> real)
    requires p.Valid() && h.LongEnough(p.minHistory)
  {
    RawTilt(Means(h, p), statics, p.tau, exp).Sum() != 0.0
  }

  /** The week that the policy prescribes: adapt towards the tilted prior, or fall back to it. */
  function WeekOf(h: History, statics: Triple, p: Policy, exp: real -> real): Week
    requires p.Valid()
  {
    if h.LongEnough(p.minHistory) && CanTilt(h, statics, p, exp)
    then Adapt(TiltTargets(Means(h, p), statics, p.tau, exp))
    else FallBack
  }

  function WeeksOf(hs: seq<History>, statics: Triple, p: Policy, exp: real -> real): seq<Week>
    requires p.Valid()
  {
    if hs == [] then [] else WeeksOf(hs[..|hs| - 1], statics, p, exp) + [WeekOf(hs[|hs| - 1], statics, p, exp)]
  }

  /** With a non-negative prior a week adapts exactly if every analyst has enough weeks with a value. */
  lemma AdaptsExactly(h: History, statics: Triple, p: Policy, exp: real -> real)
    requires p.Valid() && statics.NonNegative() && statics.Sum() > 0.0 && ExpLike(exp)
    ensures WeekOf(h, statics, p, exp).Adapt? <==>
      |ValidWeeks(h.fundamentals)| >= p.minHistory && |ValidWeeks(h.news)| >= p.minHistory
      && |ValidWeeks(h.technical)| >= p.minHistory
  {
    CountsValidWeeks(h.fundamentals);
    CountsValidWeeks(h.news);
    CountsValidWeeks(h.technical);
    if h.LongEnough(p.minHistory) {
      TiltPossible(Means(h, p), statics, p.tau, exp);
    }
  }

  /** `t` is the prior tilted by the means of the history at the scale of the policy, summing to one. */
  predicate Tilts(t: Triple, h: History, statics: Triple, p: Policy, exp: real -> real)
    requires p.Valid()
  {
    && h.LongEnough(p.minHistory) && t.Sum() == 1.0
    && TiltedBy(t, statics, Means(h, p), p.tau, exp)
  }

  /** An adaptive week has exactly one target, and that is the tilted prior. */
  lemma WeekTilts(h: History, statics: Triple, p: Policy, exp: real -> real, t: Triple)
    requires p.Valid() && WeekOf(h, statics, p, exp).Adapt?
    ensures WeekOf(h, statics, p, exp) == Adapt(t) <==> Tilts(t, h, statics, p, exp)
  {
    TiltExactly(Means(h, p), statics, p.tau, exp, t);
  }

  /** The weights are those of an update from `prev` towards the tilted prior. */
  ghost predicate TowardsTilt(weights: Triple, prev: Triple, h: History, statics: Triple, p: Policy, exp: real -> real)
    requires p.Valid() && 3.0 * Micro(p.floor) <= 1.0
  {
    forall t :: Tilts(t, h, statics, p, exp) ==> weights == Update(t, prev, Micro(p.floor), Micro(p.shift))
  }

  lemma TiltTaken(h: History, prev: Triple, statics: Triple, p: Policy, exp: real -> real, target: Triple)
    requires p.Valid() && 3.0 * Micro(p.floor) <= 1.0 && WeekOf(h, statics, p, exp) == Adapt(target)
    ensures TowardsTilt(Update(target, prev, Micro(p.floor), Micro(p.shift)), prev, h, statics, p, exp)
  {
    forall t | Tilts(t, h, statics, p, exp) ensures t == target {
      WeekTilts(h, statics, p, exp, t);
    }
  }

  /** What one run reports besides its weights, in the order of the analysts. */
  datatype Report = Report(
    weights: Triple, adaptive: bool, ewics: seq<Option<real>>, validWeeks: seq<nat>, alerts: seq<Alert>)

  datatype PolicyError = DivisionByZero

  /** The policy for one run: history and previous weights to the report. */
  method ComputeAdaptiveWeights(h: History, prev: Triple, statics: Triple, p: Policy, exp: real -> real)
    returns (r: Result<Report, PolicyError>)
    requires p.Valid()
    ensures 3.0 * Micro(p.floor) <= 1.0
    ensures r.Failure? <==> h.LongEnough(p.minHistory) && !CanTilt(h, statics, p, exp)
    ensures r.Success? ==>
      && (r.value.adaptive <==> h.LongEnough(p.minHistory))
      && r.value.weights == NextWeights(prev, WeekOf(h, statics, p, exp), statics, Micro(p.floor), Micro(p.shift))
      && (r.value.adaptive ==> TowardsTilt(r.value.weights, prev, h, statics, p, exp))
      && r.value.ewics == [Mean(h.fundamentals, p.lam), Mean(h.news, p.lam), Mean(h.technical, p.lam)]
      && r.value.validWeeks == [ValidCount(h.fundamentals), ValidCount(h.news), ValidCount(h.technical)]
      && r.value.alerts == AlertFor(Fundamentals, h.fundamentals, p) + AlertFor(News, h.news, p)
                           + AlertFor(Technical, h.technical, p)
  {
    assert 3 * p.floor <= 1000000;
    var validWeeks := [ValidCount(h.fundamentals), ValidCount(h.news), ValidCount(h.technical)];
    var fa := AlertStreak(Fundamentals, h.fundamentals, p);
    var na := AlertStreak(News, h.news, p);
    var ta := AlertStreak(Technical, h.technical, p);
    var f := Ewma(h.fundamentals, p.lam);
    var n := Ewma(h.news, p.lam);
    var t := Ewma(h.technical, p.lam);
    if validWeeks[0] < p.minHistory || validWeeks[1] < p.minHistory || validWeeks[2] < p.minHistory {
      return Success(Report(statics, false, [f, n, t], validWeeks, fa + na + ta));
    }
    MeansExist(h, p);
    var ewics := Triple(f.value, n.value, t.value);
    if RawTilt(ewics, statics, p.tau, exp).Sum() == 0.0 {
      return Failure(DivisionByZero);
    }
    var target := TiltTargets(ewics, statics, p.tau, exp);
    var weights := RoundExact(Project(target, prev, Micro(p.floor), Micro(p.shift)));
    r := Success(Report(weights, true, [f, n, t], validWeeks, fa + na + ta));
    TiltTaken(h, prev, statics, p, exp, target);
  }

  /** Recovered weights that pass as a point of the simplex: all positive, and a sum within one percent of one. */
  predicate Sane(w: Triple) {
    w.fundamentals > 0.0 && w.news > 0.0 && w.technical > 0.0
    && 0.99 < w.fundamentals + w.news + w.technical < 1.01
  }

  /** One run from the weights recovered from the last decision, if any: never fails, any error means the prior. */
  method ResolveAnalystWeights(h: History, recovered: Option<Triple>, statics: Triple, p: Policy, exp: real -> real)
    returns (r: Report)
    requires p.Valid()
    ensures 3.0 * Micro(p.floor) <= 1.0
    ensures var week, prev := WeekOf(h, statics, p, exp), AnchorOn(recovered, statics);
      && (r.adaptive <==> week.Adapt?)
      && r.weights == NextWeights(prev, week, statics, Micro(p.floor), Micro(p.shift))
    ensures var prev := if recovered.Some? && Sane(recovered.value) then recovered.value else statics;
      && (r.adaptive ==> TowardsTilt(r.weights, prev, h, statics, p, exp))
      && (!r.adaptive ==> r.weights == statics)
  {
    var prev := statics;
    if recovered.Some? && recovered.value.Positive() && 0.99 < recovered.value.Sum() < 1.01 {
      prev := recovered.value;
    }
    assert prev == AnchorOn(recovered, statics);
    var computed := ComputeAdaptiveWeights(h, prev, statics, p, exp);
    r := if computed.Success? then computed.value else Report(statics, false, [], [], []);
  }

  /** Runs week by week, each anchored on what the previous one stored. */
  function Runs(start: Triple, hs: seq<History>, statics: Triple, p: Policy, exp: real -> real): Triple
    requires p.Valid() && 3.0 * Micro(p.floor) <= 1.0
  {
    if hs == [] then start else
      var anchor := Anchor(Runs(start, hs[..|hs| - 1], statics, p, exp), statics);
      NextWeights(anchor, WeekOf(hs[|hs| - 1], statics, p, exp), statics, Micro(p.floor), Micro(p.shift))
  }

  /** The previous weights that the last run is anchored on. */
  function LastAnchor(start: Triple, hs: seq<History>, statics: Triple, p: Policy, exp: real -> real): Triple
    requires p.Valid() && 3.0 * Micro(p.floor) <= 1.0 && hs != []
  {
    Anchor(Runs(start, hs[..|hs| - 1], statics, p, exp), statics)
  }

  /**
   One more run over any start, static prior and IC histories: a run that cannot adapt uses the prior itself; every
   other run stores weights of six decimals that sum to exactly one and respect the floor, and moves within the shift
   plus one and a half millionths unless the bounds are infeasible.
   */
  lemma LastRunStored(start: Triple, hs: seq<History>, statics: Triple, p: Policy, exp: real -> real)
    returns (m: Micros)
    requires p.Valid() && hs != []
    ensures 3.0 * Micro(p.floor) <= 1.0
    ensures var anchor := LastAnchor(start, hs, statics, p, exp);
      if WeekOf(hs[|hs| - 1], statics, p, exp).Adapt? then
        && Runs(start, hs, statics, p, exp) == m.Value() && Stored(m, p.floor) && m.Value().Sum() == 1.0
        && (!Jumps(anchor, Micro(p.floor), Micro(p.shift)) ==> m.Value().Near(anchor, Micro(p.shift) + 1.5 / MICRO))
      else Runs(start, hs, statics, p, exp) == statics
  {
    assert 3 * p.floor <= 1000000;
    m := Micros(0, 0, 0);
    var week := WeekOf(hs[|hs| - 1], statics, p, exp);
    if week.Adapt? {
      m := AnyUpdateIsStored(week.target, LastAnchor(start, hs, statics, p, exp), p.floor, Micro(p.shift));
      assert m.Value().Sum() == 1.0;
    }
  }

  /** Every run after the first is anchored on exactly what the previous one stored, adaptive or not. */
  lemma RunsChain(start: Triple, hs: seq<History>, statics: Triple, p: Policy, exp: real -> real)
    requires p.Valid() && |hs| >= 2
    ensures 3.0 * Micro(p.floor) <= 1.0
    ensures LastAnchor(start, hs, statics, p, exp) == Runs(start, hs[..|hs| - 1], statics, p, exp)
  {
    var m := LastRunStored(start, hs[..|hs| - 1], statics, p, exp);
    if WeekOf(hs[|hs| - 2], statics, p, exp).Adapt? {
      AnchorKeepsStored(m, statics, p.floor);
    }
  }

  /**
   The whole loop, for any start, static prior and IC histories: after the sanity check on the start the runs are the
   plain recursion over the weeks. So a run jumps exactly if it is the first and its anchor makes it, or the previous
   one fell back and the prior does.
   */
  lemma {:induction false} RunsKeepStored(start: Triple, hs: seq<History>, statics: Triple, p: Policy,
                                        exp: real -> real)
    returns (m: Micros)
    requires p.Valid() && hs != []
    ensures 3.0 * Micro(p.floor) <= 1.0
    ensures var weeks, anchor := WeeksOf(hs, statics, p, exp), Anchor(start, statics);
      && Runs(start, hs, statics, p, exp) == After(anchor, weeks, statics, Micro(p.floor), Micro(p.shift))
      && (if FellBack(weeks) then Runs(start, hs, statics, p, exp) == statics
          else Runs(start, hs, statics, p, exp) == m.Value() && Stored(m, p.floor))
      && (Jumps(LastAnchor(start, hs, statics, p, exp), Micro(p.floor), Micro(p.shift)) <==>
            (|hs| == 1 && Jumps(anchor, Micro(p.floor), Micro(p.shift)))
            || (FellBack(WeeksOf(hs[..|hs| - 1], statics, p, exp)) && Jumps(statics, Micro(p.floor), Micro(p.shift))))
    decreases |hs|
  {
    assert 3 * p.floor <= 1000000;
    var before, anchor := hs[..|hs| - 1], Anchor(start, statics);
    var weeks := WeeksOf(hs, statics, p, exp);
    assert weeks[..|weeks| - 1] == WeeksOf(before, statics, p, exp);
    if before != [] {
      var prev := RunsKeepStored(start, before, statics, p, exp);
      RunsChain(start, hs, statics, p, exp);
    }
    var next := WeeksKeepStored(anchor, WeeksOf(before, statics, p, exp), statics, p.floor, p.shift);
    m := WeeksKeepStored(anchor, weeks, statics, p.floor, p.shift);
  }
}
