// Twelve joint goals mapped to the raw words of the two arm buses, all or none.
module GoalMap {
  import opened Words
  import opened JointUnwrap

  datatype JointMap = JointMap(zero: u16, direction: int, limit: RawLimit)

  type Maps = m: seq<JointMap> | |m| == 12
    witness seq(12, _ => JointMap(0, 1, RawLimit(0, 0)))

  type Goals = g: seq<i32> | |g| == 12 witness seq(12, _ => 0)

  datatype MapResult = Mapped | InvalidConfig(joint: nat) | OutsideLimit(joint: nat)

  predicate ConfigOk(m: JointMap) {
    m.zero < 4096 && DirectionOk(m.direction) && m.limit.minimum <= m.limit.maximum
  }

  predicate GoalInside(m: JointMap, goal: i32) {
    m.limit.minimum <= GoalRaw(m.zero, m.direction, goal) <= m.limit.maximum
  }

  /** The first joint that fails, from the j-th on. */
  function Verdict(maps: Maps, goals: Goals, j: nat): MapResult
    requires j <= 12
    decreases 12 - j
  {
    if j == 12 then Mapped
    else if !ConfigOk(maps[j]) then InvalidConfig(j)
    else if !GoalInside(maps[j], goals[j]) then OutsideLimit(j)
    else Verdict(maps, goals, j + 1)
  }

  function Word(m: JointMap, goal: i32): u16 {
    GoalRaw(m.zero, m.direction, goal) % 4096
  }

  function Words12(maps: Maps, goals: Goals): (w: seq<u16>)
    ensures |w| == 12
  {
    seq(12, j requires 0 <= j < 12 => Word(maps[j], goals[j]))
  }

  /** The conversion of one joint on its own. */
  function Single(m: JointMap, goal: i32): Result<Raw> {
    UradToRaw(m.zero, m.direction, goal, m.limit)
  }

  /** Fills a candidate for all joints first; writes the two arms only if none failed. */
  method MapGoals(maps: Maps, goals: Goals, left: array<u16>, right: array<u16>) returns (r: MapResult)
    requires left.Length == 6 && right.Length == 6 && left != right
    modifies left, right
    ensures r == Verdict(maps, goals, 0)
    ensures left[..] + right[..] == if r.Mapped? then Words12(maps, goals) else old(left[..] + right[..])
  {
    hide GoalRaw;
    var candidate: seq<u16> := [];
    for j := 0 to 12
      invariant |candidate| == j
      invariant forall k :: 0 <= k < j ==> candidate[k] == Word(maps[k], goals[k])
      invariant Verdict(maps, goals, 0) == Verdict(maps, goals, j)
      invariant left[..] == old(left[..]) && right[..] == old(right[..])
    {
      var m := maps[j];
      var unwrapped := GoalRaw(m.zero, m.direction, goals[j]);
      if m.zero >= 4096 || (m.direction != 1 && m.direction != -1) || m.limit.minimum > m.limit.maximum {
        return InvalidConfig(j);
      }
      if unwrapped < m.limit.minimum || unwrapped > m.limit.maximum { return OutsideLimit(j); }
      candidate := candidate + [unwrapped % 4096];
    }
    CopyArm(candidate[..6], left);
    CopyArm(candidate[6..], right);
    assert candidate[..6] + candidate[6..] == candidate == Words12(maps, goals);
    r := Mapped;
  }

  method CopyArm(words: seq<u16>, arm: array<u16>)
    requires |words| == 6 == arm.Length
    modifies arm
    ensures arm[..] == words
  {
    for j := 0 to 6
      invariant arm[..j] == words[..j]
    {
      arm[j] := words[j];
    }
  }

  /** One joint passes here exactly when its own conversion succeeds, with the same word. */
  lemma JointAgrees(m: JointMap, goal: i32)
    ensures ConfigOk(m) && GoalInside(m, goal) <==> Single(m, goal).Ok?
    ensures Single(m, goal).Ok? ==> Single(m, goal).value.modulo == Word(m, goal)
  {
    hide GoalRaw;
  }

  lemma {:induction false} VerdictIsAll(maps: Maps, goals: Goals, j: nat)
    requires j <= 12
    ensures Verdict(maps, goals, j).Mapped? <==> forall k :: j <= k < 12 ==> Single(maps[k], goals[k]).Ok?
    ensures var v := Verdict(maps, goals, j);
            !v.Mapped? ==> j <= v.joint < 12 && Single(maps[v.joint], goals[v.joint]).Err?
                           && forall k :: j <= k < v.joint ==> Single(maps[k], goals[k]).Ok?
    ensures var v := Verdict(maps, goals, j); !v.Mapped? ==> (v.OutsideLimit? <==> ConfigOk(maps[v.joint]))
    decreases 12 - j
  {
    hide Single, ConfigOk, GoalInside;
    if j < 12 {
      JointAgrees(maps[j], goals[j]);
      VerdictIsAll(maps, goals, j + 1);
    }
  }

  /** All or none. The map succeeds exactly when all twelve single conversions do, and then
      every word is that conversion's; otherwise it names the first joint whose own fails, and
      whether its calibration is bad or its goal outside the limit. */
  lemma MapIsTwelveConversions(maps: Maps, goals: Goals)
    ensures Verdict(maps, goals, 0).Mapped? <==> forall k :: 0 <= k < 12 ==> Single(maps[k], goals[k]).Ok?
    ensures Verdict(maps, goals, 0).Mapped? ==>
              forall k :: 0 <= k < 12 ==> Single(maps[k], goals[k]).Ok?
                                          && Words12(maps, goals)[k] == Single(maps[k], goals[k]).value.modulo
    ensures var v := Verdict(maps, goals, 0);
            !v.Mapped? ==> v.joint < 12 && Single(maps[v.joint], goals[v.joint]).Err?
                           && forall k :: 0 <= k < v.joint ==> Single(maps[k], goals[k]).Ok?
    ensures var v := Verdict(maps, goals, 0);
            !v.Mapped? ==> var m := maps[v.joint];
                           v.InvalidConfig? <==> !(m.zero < 4096 && (m.direction == 1 || m.direction == -1)
                                                   && m.limit.minimum <= m.limit.maximum)
  {
    hide Single, Word;
    VerdictIsAll(maps, goals, 0);
    forall k | 0 <= k < 12 && Single(maps[k], goals[k]).Ok?
      ensures Word(maps[k], goals[k]) == Single(maps[k], goals[k]).value.modulo
    {
      JointAgrees(maps[k], goals[k]);
    }
  }
}
