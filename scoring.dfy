/** The rule-based decision policy as a table: three rule families, each
    with two thresholds, the points of each tier and the reason code each
    tier reports, and the score thresholds of the verdict. Both copies of
    `decideFromStats` are proved to compute `Decide`. */
module Scoring {
  import opened Types

  datatype Family = Rate | Burst | Paths

  /** The statistic a family looks at. */
  function Measure(f: Family, s: Stats): nat
  {
    match f
    case Rate => s.rpm
    case Burst => s.count10s
    case Paths => s.uniquePaths60s
  }

  /** Lower and upper thresholds of each family. */
  function Low(f: Family): nat
  {
    match f
    case Rate => 60
    case Burst => 15
    case Paths => 25
  }

  function High(f: Family): nat
  {
    match f
    case Rate => 120
    case Burst => 30
    case Paths => 40
  }

  /** 2 at or above the upper threshold, 1 at or above the lower one, else 0. */
  function Tier(f: Family, s: Stats): nat
  {
    if Measure(f, s) >= High(f) then 2 else if Measure(f, s) >= Low(f) then 1 else 0
  }

  /** Points a family adds per tier: for rate 0/40/80, for burst and paths 0/20/40. */
  function Points(f: Family, tier: nat): nat
  {
    var unit := if f == Rate then 40 else 20;
    if tier == 0 then 0 else unit * tier
  }

  function FamilyOf(r: Reason): Family
  {
    match r
    case VeryHighRpm => Rate
    case HighRpm => Rate
    case Burst10s => Burst
    case ElevatedBurst10s => Burst
    case VeryManyUniquePaths => Paths
    case ManyUniquePaths => Paths
  }

  /** The reason code a family reports at tier 1 or 2. */
  function ReasonAt(f: Family, tier: nat): Reason
    requires tier == 1 || tier == 2
  {
    match f
    case Rate => if tier == 2 then VeryHighRpm else HighRpm
    case Burst => if tier == 2 then Burst10s else ElevatedBurst10s
    case Paths => if tier == 2 then VeryManyUniquePaths else ManyUniquePaths
  }

  /** What a reason code is worth. */
  function ReasonPoints(r: Reason): nat
  {
    match r
    case VeryHighRpm => 80
    case HighRpm => 40
    case Burst10s => 40
    case ElevatedBurst10s => 20
    case VeryManyUniquePaths => 40
    case ManyUniquePaths => 20
  }

  /** The position of a family in evaluation order. */
  function Rank(f: Family): nat
  {
    match f
    case Rate => 0
    case Burst => 1
    case Paths => 2
  }

  function FamilyReasons(f: Family, s: Stats): seq<Reason>
  {
    var t := Tier(f, s);
    if t == 0 then [] else [ReasonAt(f, t)]
  }

  function Score(s: Stats): nat
  {
    Points(Rate, Tier(Rate, s)) + Points(Burst, Tier(Burst, s)) + Points(Paths, Tier(Paths, s))
  }

  /** The verdict of a total score. */
  function VerdictOf(score: int): Verdict
  {
    if score >= 80 then Block else if score >= 30 then Challenge else Allow
  }

  /** How severe a verdict is: ALLOW < CHALLENGE < BLOCK. */
  function Severity(v: Verdict): nat
  {
    match v
    case Allow => 0
    case Challenge => 1
    case Block => 2
  }

  /** The reference decision for a set of stats. */
  function Decide(s: Stats): Decision
  {
    Decision(VerdictOf(Score(s)), Score(s),
             FamilyReasons(Rate, s) + FamilyReasons(Burst, s) + FamilyReasons(Paths, s))
  }

  function SumPoints(rs: seq<Reason>): nat
  {
    if rs == [] then 0 else ReasonPoints(rs[0]) + SumPoints(rs[1..])
  }

  lemma {:induction false} SumPointsAppend(a: seq<Reason>, b: seq<Reason>)
    ensures SumPoints(a + b) == SumPoints(a) + SumPoints(b)
  {
    if a == [] {
      assert a + b == b;
    } else {
      assert (a + b)[0] == a[0];
      assert (a + b)[1..] == a[1..] + b;
      SumPointsAppend(a[1..], b);
    }
  }

  /** The score is a multiple of 20 between 0 and 160, and it is exactly
      the sum of the points of the reasons reported. */
  lemma ScoreShape(s: Stats)
    ensures 0 <= Decide(s).score <= 160 && Decide(s).score % 20 == 0
    ensures Decide(s).score == SumPoints(Decide(s).reasons)
  {
    var a, b, c := FamilyReasons(Rate, s), FamilyReasons(Burst, s), FamilyReasons(Paths, s);
    FamilyPoints(Rate, s);
    FamilyPoints(Burst, s);
    FamilyPoints(Paths, s);
    SumPointsAppend(a, b);
    SumPointsAppend(a + b, c);
  }

  /** A family's reason is worth the points the family adds. */
  lemma FamilyPoints(f: Family, s: Stats)
    ensures SumPoints(FamilyReasons(f, s)) == Points(f, Tier(f, s))
    ensures Points(f, Tier(f, s)) % 20 == 0 && Points(f, Tier(f, s)) <= (if f == Rate then 80 else 40)
  {
    var t := Tier(f, s);
    if t != 0 {
      assert FamilyReasons(f, s) == [ReasonAt(f, t)];
      assert SumPoints([ReasonAt(f, t)]) == ReasonPoints(ReasonAt(f, t)) + SumPoints([]);
    }
  }

  /** At most one reason per family, at most three in all, in the order
      rate, burst, path diversity. */
  lemma ReasonsOrdered(s: Stats)
    ensures |Decide(s).reasons| <= 3
    ensures forall i, j :: 0 <= i < j < |Decide(s).reasons| ==>
              Rank(FamilyOf(Decide(s).reasons[i])) < Rank(FamilyOf(Decide(s).reasons[j]))
  {
  }

  /** A reason is reported iff its threshold holds and the higher tier's does not. */
  lemma ReasonPresence(s: Stats)
    ensures VeryHighRpm in Decide(s).reasons <==> s.rpm >= 120
    ensures HighRpm in Decide(s).reasons <==> 60 <= s.rpm < 120
    ensures Burst10s in Decide(s).reasons <==> s.count10s >= 30
    ensures ElevatedBurst10s in Decide(s).reasons <==> 15 <= s.count10s < 30
    ensures VeryManyUniquePaths in Decide(s).reasons <==> s.uniquePaths60s >= 40
    ensures ManyUniquePaths in Decide(s).reasons <==> 25 <= s.uniquePaths60s < 40
  {
  }

  /** BLOCK iff the score is at least 80; CHALLENGE iff it is in [30, 80). */
  lemma VerdictBands(s: Stats)
    ensures Decide(s).verdict == Block <==> Decide(s).score >= 80
    ensures Decide(s).verdict == Challenge <==> 30 <= Decide(s).score < 80
    ensures Decide(s).verdict == Allow <==> Decide(s).score < 30
  {
  }

  /** Raising the request rate, the burst count or the path diversity
      never lowers the score nor the severity of the verdict. */
  lemma Monotone(s: Stats, t: Stats)
    requires s.rpm <= t.rpm && s.count10s <= t.count10s && s.uniquePaths60s <= t.uniquePaths60s
    ensures Decide(s).score <= Decide(t).score
    ensures Severity(Decide(s).verdict) <= Severity(Decide(t).verdict)
  {
  }

  /** `count_60s` plays no part in the decision. */
  lemma IgnoresCount60(s: Stats, n: nat)
    ensures Decide(s.(count60s := n)) == Decide(s)
  {
  }

  /** Zero stats: ALLOW, score 0, no reasons. */
  lemma DecideZero()
    ensures Decide(ZeroStats) == Decision(Allow, 0, [])
  {
  }

  lemma ExampleVeryHighRpm()
    ensures Decide(Stats(5, 130, 130, 5)) == Decision(Block, 80, [VeryHighRpm])
    ensures Decide(Stats(5, 130, 130, 5)).verdict.Name() == "BLOCK"
    ensures VeryHighRpm.Code() == "very_high_rpm"
  {
  }

  /** A burst-only case: count_10s 20, rpm 10, 10 paths. Its stats have
      count_10s > count_60s, which `computeStats` never returns
      (`Detection.StatsBounds`); the policy is a function of any stats. */
  lemma ExampleBurstOnly()
    ensures Decide(Stats(20, 10, 10, 10)) == Decision(Allow, 20, [ElevatedBurst10s])
  {
  }

  lemma ExampleThreeLowTiers()
    ensures Decide(Stats(16, 70, 70, 26)) == Decision(Block, 80, [HighRpm, ElevatedBurst10s, ManyUniquePaths])
  {
  }
}
