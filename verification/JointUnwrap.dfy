// Encoder arithmetic: binding a single-turn reading to the one full turn near a reference,
// following it from sample to sample, and converting between raw units and microradians.
module JointUnwrap {
  import opened Words
  import opened Division

  const TURN: int := 4096
  const HALF_TURN: int := 2048
  const TURN_URAD: int := 6283185

  datatype Fault =
    RawOutOfRange | BadReferenceWindow | ReferenceTooFar | AmbiguousDelta | BadDirection | LimitViolation | Overflow

  datatype Result<+T> = Ok(value: T) | Err(fault: Fault)

  datatype Unwrapper = Unwrapper(bound: bool, previousRaw: u16, unwrappedRaw: i32)

  const UNBOUND: Unwrapper := Unwrapper(false, 0, 0)

  predicate FitsI32(x: int) {
    -0x8000_0000 <= x < 0x8000_0000
  }

  // ---- bind -----------------------------------------------------------------

  /** The nearest candidate so far, and whether another is exactly as near. */
  datatype Best = Best(candidate: int, distance: int, tied: bool)

  const NONE_YET: Best := Best(0, 0x7FFF_FFFF_FFFF_FFFF, false)

  function Considered(b: Best, candidate: int, reference: int): Best {
    var distance := Abs(candidate - reference);
    if distance < b.distance then Best(candidate, distance, false)
    else if distance == b.distance then b.(tied := true)
    else b
  }

  function ApproximateTurn(observed: u16, reference: i32): int {
    TruncDiv(reference as int - observed, 4096)
  }

  /** The candidate `offset` turns from the truncated quotient. */
  function Candidate(observed: u16, reference: i32, offset: int): int {
    observed + (ApproximateTurn(observed, reference) + offset) * 4096
  }

  /** The best of the candidates before this offset. */
  function BestBefore(observed: u16, reference: i32, offset: int): Best
    requires -1 <= offset
    decreases offset
  {
    if offset == -1 then NONE_YET
    else Considered(BestBefore(observed, reference, offset - 1), Candidate(observed, reference, offset - 1), reference)
  }

  function BindVerdict(observed: u16, reference: i32, window: u16): Result<i32> {
    if observed >= 4096 then Err(RawOutOfRange)
    else if window == 0 || window >= 2048 then Err(BadReferenceWindow)
    else
      var b := BestBefore(observed, reference, 2);
      if b.tied then Err(AmbiguousDelta)
      else if b.distance > window then Err(ReferenceTooFar)
      else if !FitsI32(b.candidate) then Err(Overflow)
      else Ok(b.candidate)
  }

  function Bound(s: Unwrapper, observed: u16, reference: i32, window: u16): (Unwrapper, Result<i32>) {
    var v := BindVerdict(observed, reference, window);
    (if v.Ok? then Unwrapper(true, observed, v.value) else s, v)
  }

  // ---- update ---------------------------------------------------------------

  function Updated(s: Unwrapper, observed: u16): (Unwrapper, Result<i32>) {
    if !s.bound then (s, Err(ReferenceTooFar))
    else if observed >= 4096 then (s, Err(RawOutOfRange))
    else
      var raw := observed as int - s.previousRaw;
      if raw == 2048 || raw == -2048 then (s, Err(AmbiguousDelta))
      else
        var delta := if raw > 2048 then raw - 4096 else if raw < -2048 then raw + 4096 else raw;
        if !FitsI32(s.unwrappedRaw + delta) then (s, Err(Overflow))
        else (Unwrapper(true, observed, s.unwrappedRaw + delta), Ok(s.unwrappedRaw + delta))
  }

  class UnwrapperObject {
    var bound: bool
    var previousRaw: u16
    var unwrappedRaw: i32

    ghost function State(): Unwrapper
      reads this
    {
      Unwrapper(bound, previousRaw, unwrappedRaw)
    }

    constructor ()
      ensures State() == UNBOUND
    {
      bound, previousRaw, unwrappedRaw := false, 0, 0;
    }

    method Reset()
      modifies this
      ensures State() == UNBOUND
    {
      bound, previousRaw, unwrappedRaw := false, 0, 0;
    }

    method Bind(observed: u16, reference: i32, window: u16) returns (r: Result<i32>)
      modifies this
      ensures (State(), r) == Bound(old(State()), observed, reference, window)
    {
      var turn := ApproximateTurn(observed, reference);
      if observed >= 4096 { return Err(RawOutOfRange); }
      if window == 0 || window >= 2048 { return Err(BadReferenceWindow); }
      var best, bestDistance, tied := 0, 0x7FFF_FFFF_FFFF_FFFF, false;
      for offset := -1 to 2
        invariant Best(best, bestDistance, tied) == BestBefore(observed, reference, offset)
      {
        var candidate := observed + (turn + offset) * 4096;
        var distance := Abs(candidate - reference);
        if distance < bestDistance {
          best, bestDistance, tied := candidate, distance, false;
        } else if distance == bestDistance {
          tied := true;
        }
      }
      if tied { return Err(AmbiguousDelta); }
      if bestDistance > window { return Err(ReferenceTooFar); }
      if !FitsI32(best) { return Err(Overflow); }
      bound, previousRaw, unwrappedRaw := true, observed, best;
      r := Ok(best);
    }

    method Update(observed: u16) returns (r: Result<i32>)
      modifies this
      ensures (State(), r) == Updated(old(State()), observed)
    {
      if !bound { return Err(ReferenceTooFar); }
      if observed >= 4096 { return Err(RawOutOfRange); }
      var delta := observed as int - previousRaw;
      if delta == 2048 || delta == -2048 { return Err(AmbiguousDelta); }
      if delta > 2048 {
        delta := delta - 4096;
      } else if delta < -2048 {
        delta := delta + 4096;
      }
      if !FitsI32(unwrappedRaw + delta) { return Err(Overflow); }
      previousRaw, unwrappedRaw := observed, unwrappedRaw + delta;
      r := Ok(unwrappedRaw);
    }
  }

  // ---- binding is exact -----------------------------------------------------

  /** A representable full-turn position with this reading, inside the window. */
  predicate Turn(v: int, observed: u16, reference: i32, window: u16) {
    FitsI32(v) && v % 4096 == observed && Distance(v, reference) <= window
  }

  /** The three offsets' distances from the reference, by the remainder of the quotient. */
  lemma CandidateDistance(observed: u16, reference: i32, offset: int)
    ensures var r := reference as int - Candidate(observed, reference, 0);
            -4096 < r < 4096 && Candidate(observed, reference, offset) - reference == 4096 * offset - r
  {
    var d := reference as int - observed;
    if d >= 0 {
      assert d == 4096 * (d / 4096) + d % 4096;
    } else {
      assert -d == 4096 * ((-d) / 4096) + (-d) % 4096;
    }
  }

  lemma CandidatesAreTurns(observed: u16, reference: i32, offset: int)
    requires observed < 4096
    ensures Candidate(observed, reference, offset) % 4096 == observed
  {
    var k := ApproximateTurn(observed, reference) + offset;
    assert (observed + k * 4096) % 4096 == observed;
  }

  /** Any turn within half a turn of the reference is one of the three tried. */
  lemma TurnIsTried(v: int, observed: u16, reference: i32)
    requires observed < 4096 && v % 4096 == observed && Distance(v, reference) < 2048
    ensures v == Candidate(observed, reference, -1) || v == Candidate(observed, reference, 0)
            || v == Candidate(observed, reference, 1)
  {
    var k := v / 4096 - ApproximateTurn(observed, reference);
    assert v == Candidate(observed, reference, k);
    CandidateDistance(observed, reference, k);
    var r := reference as int - Candidate(observed, reference, 0);
    assert -2048 < 4096 * k - r < 2048;
  }

  /** What the scan keeps: its best is one of the candidates, none is nearer, and if the
      best is under half a turn away nothing ties with it. */
  lemma BestIsNearest(observed: u16, reference: i32)
    ensures var b := BestBefore(observed, reference, 2);
            && (b.candidate == Candidate(observed, reference, -1) || b.candidate == Candidate(observed, reference, 0)
                || b.candidate == Candidate(observed, reference, 1))
            && b.distance == Distance(b.candidate, reference)
            && (forall o :: -1 <= o <= 1 ==> b.distance <= Distance(Candidate(observed, reference, o), reference))
            && (b.distance < 2048 ==> !b.tied)
  {
    hide Candidate;
    CandidateDistance(observed, reference, -1);
    CandidateDistance(observed, reference, 0);
    CandidateDistance(observed, reference, 1);
    var b0 := BestBefore(observed, reference, 0);
    var b1 := BestBefore(observed, reference, 1);
    var b2 := BestBefore(observed, reference, 2);
    assert b0 == Considered(NONE_YET, Candidate(observed, reference, -1), reference);
    assert b1 == Considered(b0, Candidate(observed, reference, 0), reference);
    assert b2 == Considered(b1, Candidate(observed, reference, 1), reference);
  }

  /** Bind. It succeeds exactly for a legal reading and window when some representable turn
      with this reading lies inside the window, and then returns it; there is only one. */
  lemma BindIsExact(observed: u16, reference: i32, window: u16)
    ensures BindVerdict(observed, reference, window).Ok? <==>
              observed < 4096 && 0 < window < 2048 && exists v :: Turn(v, observed, reference, window)
    ensures BindVerdict(observed, reference, window).Ok? ==>
              forall v :: Turn(v, observed, reference, window) <==> v == BindVerdict(observed, reference, window).value
  {
    hide BestBefore, Candidate;
    if observed < 4096 && 0 < window < 2048 {
      var b := BestBefore(observed, reference, 2);
      BestIsNearest(observed, reference);
      CandidatesAreTurns(observed, reference, -1);
      CandidatesAreTurns(observed, reference, 0);
      CandidatesAreTurns(observed, reference, 1);
      forall v | Turn(v, observed, reference, window) ensures v == b.candidate && b.distance <= window {
        TurnIsTried(v, observed, reference);
        TurnsAreFarApart(v, b.candidate, observed, reference);
      }
      if BindVerdict(observed, reference, window).Ok? {
        assert Turn(b.candidate, observed, reference, window);
      }
    }
  }

  /** Two turns with one reading, each under half a turn from the reference, are the same. */
  lemma TurnsAreFarApart(v: int, w: int, observed: u16, reference: i32)
    requires v % 4096 == observed && w % 4096 == observed
    requires Distance(v, reference) < 2048 && Distance(w, reference) < 2048
    ensures v == w
  {
    assert v - w == 4096 * (v / 4096 - w / 4096);
  }

  /** Two candidates tie exactly when the reference lies half a turn from both. */
  lemma TieIsHalfTurn(observed: u16, reference: i32)
    requires observed < 4096
    ensures BestBefore(observed, reference, 2).tied <==> (reference - 2048) % 4096 == observed
    ensures BestBefore(observed, reference, 2).tied ==> BestBefore(observed, reference, 2).distance == 2048
  {
    var c := Candidate(observed, reference, 0);
    hide Candidate;
    CandidateDistance(observed, reference, -1);
    CandidateDistance(observed, reference, 0);
    CandidateDistance(observed, reference, 1);
    CandidatesAreTurns(observed, reference, 0);
    var r := reference as int - c;
    var b0 := BestBefore(observed, reference, 0);
    var b1 := BestBefore(observed, reference, 1);
    assert b0 == Considered(NONE_YET, Candidate(observed, reference, -1), reference);
    assert b1 == Considered(b0, Candidate(observed, reference, 0), reference);
    assert BestBefore(observed, reference, 2) == Considered(b1, Candidate(observed, reference, 1), reference);
    HalfTurnOff(c, observed, reference);
  }

  lemma HalfTurnOff(c: int, observed: u16, reference: int)
    requires c % 4096 == observed && -4096 < reference - c < 4096
    ensures (reference - 2048) % 4096 == observed <==> reference - c == 2048 || reference - c == -2048
  {
    if (reference - 2048) % 4096 == observed {
      assert reference - 2048 - c == 4096 * ((reference - 2048) / 4096 - c / 4096);
    }
    if reference - c == 2048 || reference - c == -2048 {
      assert reference - 2048 == c || reference - 2048 == c - 4096;
    }
  }

  /** Why a bind is refused, in every case: the reading or the window is illegal, the reference
      lies exactly half a turn from two positions, none is inside the window, or the one that
      is cannot be represented. A refusal leaves the state. */
  lemma BindRefusalsAreExact(s: Unwrapper, observed: u16, reference: i32, window: u16)
    ensures var (n, r) := Bound(s, observed, reference, window);
            var near := exists v :: v % 4096 == observed && Distance(v, reference) <= window;
            && (if observed >= 4096 then r == Err(RawOutOfRange)
                else if window == 0 || window >= 2048 then r == Err(BadReferenceWindow)
                else if (reference - 2048) % 4096 == observed then r == Err(AmbiguousDelta)
                else if !near then r == Err(ReferenceTooFar)
                else r == Err(Overflow) || (r.Ok? && n == Unwrapper(true, observed, r.value)))
            && (r.Err? ==> n == s)
  {
    hide BestBefore, Candidate;
    if observed < 4096 && 0 < window < 2048 {
      var b := BestBefore(observed, reference, 2);
      BestIsNearest(observed, reference);
      TieIsHalfTurn(observed, reference);
      CandidatesAreTurns(observed, reference, -1);
      CandidatesAreTurns(observed, reference, 0);
      CandidatesAreTurns(observed, reference, 1);
      assert b.candidate % 4096 == observed;
      forall v | v % 4096 == observed && Distance(v, reference) <= window ensures b.distance <= window {
        TurnIsTried(v, observed, reference);
      }
    }
  }

  // ---- following ------------------------------------------------------------

  /** The state follows a true position. */
  predicate Follows(s: Unwrapper, position: int) {
    s.bound && s.unwrappedRaw == position && s.previousRaw == position % 4096
  }

  lemma UpdateFollows(s: Unwrapper, position: int, next: int)
    requires Follows(s, position) && Distance(next, position) < 2048 && FitsI32(next)
    ensures var (n, r) := Updated(s, next % 4096); r == Ok(next) && Follows(n, next)
  {
    var k := next / 4096 - position / 4096;
    assert next - position == next % 4096 - position % 4096 + 4096 * k;
  }

  /** Some turn with this reading lies less than half a turn from a position. */
  predicate Near(v: int, observed: u16, position: int) {
    v % 4096 == observed && Distance(v, position) < 2048
  }

  /** An update, in every case. A legal reading is taken exactly when the position less than
      half a turn from the last that shows it is representable, which is then the new one; an
      exact half turn is ambiguous; anything refused changes nothing. */
  lemma UpdateIsExact(s: Unwrapper, position: i32, observed: u16)
    requires Follows(s, position)
    ensures var (n, r) := Updated(s, observed);
            && (r.Ok? <==> observed < 4096 && exists v :: Near(v, observed, position) && FitsI32(v))
            && (r.Ok? ==> Follows(n, r.value) && forall v :: Near(v, observed, position) ==> v == r.value)
            && (r == Err(RawOutOfRange) <==> observed >= 4096)
            && (r == Err(AmbiguousDelta) <==> observed < 4096 && (position - 2048) % 4096 == observed)
            && (r.Err? ==> n == s && r.fault in [RawOutOfRange, AmbiguousDelta, Overflow])
  {
    if observed < 4096 {
      var d := observed as int - position % 4096;
      assert (position - 2048) % 4096 == observed <==> d == 2048 || d == -2048 by { HalfAway(position, observed); }
      if d != 2048 && d != -2048 {
        var k := if d > 2048 then -1 else if d < -2048 then 1 else 0;
        var v := position + d + 4096 * k;
        ShiftedReading(position, observed, k);
        assert Near(v, observed, position);
        forall w | Near(w, observed, position) ensures w == v { NearIsOne(v, w, observed, position); }
      } else {
        forall w ensures !Near(w, observed, position) { if Near(w, observed, position) { NoneHalfAway(w, observed, position); } }
      }
    }
  }

  /** Before a bind nothing is followed. */
  lemma UnboundIsRefused(s: Unwrapper, observed: u16)
    requires !s.bound
    ensures Updated(s, observed) == (s, Err(ReferenceTooFar))
  {
  }

  lemma HalfAway(position: int, observed: u16)
    requires observed < 4096
    ensures (position - 2048) % 4096 == observed <==> Distance(observed, position % 4096) == 2048
  {
    var r := position % 4096;
    assert position == 4096 * (position / 4096) + r;
    if r >= 2048 {
      assert position - 2048 == 4096 * (position / 4096) + (r - 2048);
    } else {
      assert position - 2048 == 4096 * (position / 4096 - 1) + (r + 2048);
    }
  }

  lemma ShiftedReading(position: int, observed: u16, k: int)
    requires observed < 4096
    ensures (position + (observed - position % 4096) + 4096 * k) % 4096 == observed
  {
    assert position + (observed - position % 4096) + 4096 * k == 4096 * (position / 4096 + k) + observed;
  }

  lemma NearIsOne(v: int, w: int, observed: u16, position: int)
    requires Near(v, observed, position) && Near(w, observed, position)
    ensures v == w
  {
    assert v - w == 4096 * (v / 4096 - w / 4096);
  }

  lemma NoneHalfAway(w: int, observed: u16, position: int)
    requires Near(w, observed, position)
    ensures Distance(observed, position % 4096) != 2048
  {
    assert w - position == 4096 * (w / 4096 - position / 4096) + (observed - position % 4096);
  }

  function Followed(s: Unwrapper, positions: seq<int>): Unwrapper
    decreases |positions|
  {
    if positions == [] then s else Followed(Updated(s, positions[0] % 4096).0, positions[1..])
  }

  predicate SmallMoves(from: int, positions: seq<int>)
    decreases |positions|
  {
    positions == [] ||
    (Distance(positions[0], from) < 2048 && FitsI32(positions[0]) && SmallMoves(positions[0], positions[1..]))
  }

  /** Updates from single-turn readings equal the true position for as long as every move
      is under half a turn. */
  lemma {:induction false} UpdatesTrackTruth(s: Unwrapper, from: int, positions: seq<int>)
    requires Follows(s, from) && SmallMoves(from, positions)
    ensures Follows(Followed(s, positions), if positions == [] then from else positions[|positions| - 1])
    decreases |positions|
  {
    hide Updated;
    if positions != [] {
      UpdateFollows(s, from, positions[0]);
      UpdatesTrackTruth(Updated(s, positions[0] % 4096).0, positions[0], positions[1..]);
    }
  }

  /** A successful bind follows the turn it found. */
  lemma BindFollows(s: Unwrapper, observed: u16, reference: i32, window: u16)
    requires Bound(s, observed, reference, window).1.Ok?
    ensures var (n, r) := Bound(s, observed, reference, window); Follows(n, r.value)
  {
    hide BindVerdict;
    BindIsExact(observed, reference, window);
    assert Turn(BindVerdict(observed, reference, window).value, observed, reference, window);
  }

  // ---- conversions ----------------------------------------------------------

  /** Division rounded to nearest, halves away from zero. */
  function RoundDivide(n: int, d: int): int
    requires d > 0
  {
    if n >= 0 then (n + d / 2) / d else -((-n + d / 2) / d)
  }

  predicate DirectionOk(direction: int) {
    direction == 1 || direction == -1
  }

  function RawToUrad(zero: u16, direction: int, unwrapped: i32): Result<i32> {
    if zero >= 4096 then Err(RawOutOfRange)
    else if !DirectionOk(direction) then Err(BadDirection)
    else
      var urad := RoundDivide((unwrapped as int - zero) * direction * TURN_URAD, 4096);
      if !FitsI32(urad) then Err(Overflow) else Ok(urad)
  }

  datatype RawLimit = RawLimit(minimum: i32, maximum: i32)

  datatype Raw = Raw(unwrapped: i32, modulo: u16)

  /** The unwrapped position a goal asks for. */
  function GoalRaw(zero: u16, direction: int, urad: i32): int {
    zero + direction * RoundDivide(urad * 4096, TURN_URAD)
  }

  function UradToRaw(zero: u16, direction: int, urad: i32, limit: RawLimit): Result<Raw> {
    if zero >= 4096 then Err(RawOutOfRange)
    else if !DirectionOk(direction) then Err(BadDirection)
    else if limit.minimum > limit.maximum then Err(LimitViolation)
    else
      var candidate := GoalRaw(zero, direction, urad);
      if !FitsI32(candidate) then Err(Overflow)
      else if candidate < limit.minimum || candidate > limit.maximum then Err(LimitViolation)
      else Ok(Raw(candidate, candidate % 4096))
  }

  /** The remainder as C computes it, made nonnegative, is the mathematical one. */
  lemma ModuloAsInC(x: int)
    ensures var c := x - TruncDiv(x, 4096) * 4096; (if c < 0 then c + 4096 else c) == x % 4096
  {
    if x < 0 { assert -x == 4096 * ((-x) / 4096) + (-x) % 4096; }
  }

  lemma RoundingError(n: int, d: int)
    requires d > 0
    ensures 2 * Distance(d * RoundDivide(n, d), n) <= d
  {
    var m := if n >= 0 then n + d / 2 else -n + d / 2;
    assert m == d * (m / d) + m % d;
    if n < 0 { assert d * -(m / d) == -(d * (m / d)); }
  }

  lemma CloseMultiples(d: int, p: int, q: int, n: int)
    requires d > 0 && 2 * Distance(d * p, n) <= d && 2 * Distance(d * q, n) < d
    ensures p == q
  {
    var a, b := d * p, d * q;
    assert d * (p - q) == a - b && d * (q - p) == b - a;
    MultipleBelow(d, p - q);
    MultipleBelow(d, q - p);
  }

  lemma RoundingIsUnique(n: int, d: int, q: int)
    requires d > 0 && 2 * Distance(d * q, n) < d
    ensures RoundDivide(n, d) == q
  {
    hide RoundDivide;
    RoundingError(n, d);
    CloseMultiples(d, RoundDivide(n, d), q, n);
  }

  /** Raw to microradians and back is exact, for every raw position whose angle fits. */
  lemma RawRoundTrip(zero: u16, direction: int, unwrapped: i32, limit: RawLimit)
    requires limit.minimum <= unwrapped <= limit.maximum
    requires RawToUrad(zero, direction, unwrapped).Ok?
    ensures UradToRaw(zero, direction, RawToUrad(zero, direction, unwrapped).value, limit)
         == Ok(Raw(unwrapped, unwrapped % 4096))
  {
    hide RoundDivide;
    var n := (unwrapped as int - zero) * direction;
    var urad := RoundDivide(n * TURN_URAD, 4096);
    RoundingError(n * TURN_URAD, 4096);
    RoundingIsUnique(urad * 4096, TURN_URAD, n);
  }

  /** How far from a whole number of units a conversion may be: half a unit. */
  predicate Nearest(q: int, n: int, d: int) {
    -d <= 2 * (d * q - n) <= d
  }

  /** The nearest, and of two equally near the one further from zero. */
  predicate Rounded(q: int, n: int, d: int) {
    Nearest(q, n, d) && (2 * Distance(d * q, n) == d ==> Abs(d * q) > Abs(n))
  }

  lemma RoundsAway(n: int, d: int)
    requires d > 0
    ensures Rounded(RoundDivide(n, d), n, d)
  {
    RoundingError(n, d);
    var m := if n >= 0 then n + d / 2 else -n + d / 2;
    assert m == d * (m / d) + m % d;
    if n < 0 { assert d * -(m / d) == -(d * (m / d)); }
  }

  lemma RoundedIsOne(n: int, p: int, q: int)
    requires Rounded(p, n, 4096) && Rounded(q, n, 4096)
    ensures p == q
  {
  }

  /** The angle of a raw position: succeeds exactly for a legal zero and direction and an angle
      that fits, and is then the signed distance from the zero in microradians, rounded to
      nearest and halves away from zero, a turn of 4096 units being 6283185. */
  lemma AngleIsNearest(zero: u16, direction: int, unwrapped: i32)
    ensures var r := RawToUrad(zero, direction, unwrapped);
            var units := if direction == 1 then unwrapped as int - zero else zero as int - unwrapped;
            && (r.Ok? ==> zero < 4096 && (direction == 1 || direction == -1) && Rounded(r.value, units * 6283185, 4096))
            && (r == Err(RawOutOfRange) <==> zero >= 4096)
            && (r == Err(BadDirection) <==> zero < 4096 && direction != 1 && direction != -1)
            && (r.Err? && zero < 4096 && (direction == 1 || direction == -1) ==>
                  && r == Err(Overflow)
                  && forall u: i32 :: !Rounded(u, units * 6283185, 4096))
  {
    hide RoundDivide;
    var units := if direction == 1 then unwrapped as int - zero else zero as int - unwrapped;
    var n := units * 6283185;
    RoundsAway(n, 4096);
    hide Rounded;
    var q := RoundDivide(n, 4096);
    if zero < 4096 && (direction == 1 || direction == -1) {
      assert (unwrapped as int - zero) * direction * 6283185 == n;
      forall u: i32 | Rounded(u, n, 4096) ensures u == q { RoundedIsOne(n, u, q); }
    }
  }

  /** The raw position nearest to an angle, counted from the zero in the joint's direction. */
  predicate IsGoal(v: int, zero: u16, direction: int, urad: i32) {
    Nearest(direction * (v - zero), urad * 4096, 6283185)
  }

  /** The raw position of a goal: refused exactly for an illegal zero, direction or limit, or
      when the position nearest to the angle, counted from the zero, is outside the limit or
      cannot be represented; it is given with its reading within a turn. */
  lemma GoalIsNearest(zero: u16, direction: int, urad: i32, limit: RawLimit)
    ensures var r := UradToRaw(zero, direction, urad, limit);
            && (r.Ok? ==>
                  && zero < 4096 && (direction == 1 || direction == -1)
                  && limit.minimum <= r.value.unwrapped <= limit.maximum && IsGoal(r.value.unwrapped, zero, direction, urad)
                  && r.value.modulo == r.value.unwrapped % 4096)
            && (r.Err? && zero < 4096 && (direction == 1 || direction == -1) ==>
                  forall v: i32 :: limit.minimum <= v <= limit.maximum ==> !IsGoal(v, zero, direction, urad))
            && (r == Err(RawOutOfRange) <==> zero >= 4096)
            && (r == Err(BadDirection) <==> zero < 4096 && direction != 1 && direction != -1)
            && (r == Err(Overflow) ==> limit.minimum <= limit.maximum && forall v: i32 :: !IsGoal(v, zero, direction, urad))
            && (r == Err(LimitViolation) && limit.minimum <= limit.maximum ==> exists v: i32 :: IsGoal(v, zero, direction, urad))
            && (r.Err? ==> r.fault in [RawOutOfRange, BadDirection, Overflow, LimitViolation])
  {
    hide RoundDivide;
    var q := RoundDivide(urad * 4096, 6283185);
    RoundingError(urad * 4096, 6283185);
    var r := UradToRaw(zero, direction, urad, limit);
    if zero < 4096 && (direction == 1 || direction == -1) {
      if r.Ok? {
        assert direction * (r.value.unwrapped - zero) == q by { SignTwice(direction, q); }
      } else {
        forall v: i32 | IsGoal(v, zero, direction, urad) ensures v == zero + direction * q {
          NearestIsOne(urad * 4096, direction * (v - zero), q);
          SignTwice(direction, v - zero);
        }
        assert IsGoal(zero + direction * q, zero, direction, urad) by { SignTwice(direction, q); }
      }
    }
  }

  lemma SignTwice(direction: int, x: int)
    requires direction == 1 || direction == -1
    ensures direction * (direction * x) == x
  {
  }

  /** An odd unit leaves no tie. */
  lemma NearestIsOne(n: int, p: int, q: int)
    requires Nearest(p, n, 6283185) && Nearest(q, n, 6283185)
    ensures p == q
  {
  }
}
