/**
 * Tip scoring: how a finished plate is judged against a customer's goal.
 *
 * A goal is a partial nutrition record (`map<Field, real>` holding only the
 * fields the customer cares about); the plate is read as a string-keyed
 * record too, where a missing key reads as 0.  `Tip` is the order-free
 * definition of the score; `CalculateTip` is `calculateTip`'s loop, which visits
 * the goal's keys in whatever order `for...in` yields them, and is proved to
 * compute `Tip` for every such order.
 */
module Scoring {
  import opened Cooking

  /** The value the plate record holds for a field; a missing key counts as 0. */
  function Achieved(plate: map<Field, real>, f: Field): real
  {
    if f in plate then plate[f] else 0.0
  }

  /**
   * What every caller guarantees of a goal: each target other than sugar is
   * positive.  This rules out `0 / 0` in the per-field score.
   */
  predicate TargetsPositive(goal: map<Field, real>)
  {
    forall f :: f in goal && f != Sugar ==> goal[f] > 0.0
  }

  /**
   * The goals the customer generator produces: one or two fields, sugar with
   * target 0, every other field an integer target from 10 to 39.
   */
  predicate GeneratedGoal(goal: map<Field, real>)
  {
    && 1 <= |goal.Keys| <= 2
    && (Sugar in goal ==> goal[Sugar] == 0.0)
    && forall f :: f in goal && f != Sugar ==> 10.0 <= goal[f] <= 39.0 && goal[f] == goal[f].Floor as real
  }

  lemma GeneratedGoalIsValid(goal: map<Field, real>)
    requires GeneratedGoal(goal)
    ensures TargetsPositive(goal)
  {
  }

  /**
   * One goal field is met: for sugar, the plate holds no sugar (the target
   * value itself is ignored); for any other field, the plate reaches the target.
   */
  predicate Met(goal: map<Field, real>, plate: map<Field, real>, f: Field)
    requires f in goal
  {
    if f == Sugar then !(Achieved(plate, Sugar) > 0.0) else !(Achieved(plate, f) < goal[f])
  }

  /** Every field of the goal is met. */
  predicate AllMet(goal: map<Field, real>, plate: map<Field, real>)
  {
    forall f :: f in goal ==> Met(goal, plate, f)
  }

  function Min(a: real, b: real): real
  {
    if a <= b then a else b
  }

  /**
   * The contribution of one met field: 1 for sugar, otherwise
   * `min(1, target / achieved)`, so overshooting the target lowers it.
   */
  function Score(goal: map<Field, real>, plate: map<Field, real>, f: Field): (s: real)
    requires f in goal && TargetsPositive(goal) && Met(goal, plate, f)
    ensures 0.0 < s <= 1.0
    ensures s == 1.0 <==> f == Sugar || Achieved(plate, f) == goal[f]
  {
    if f == Sugar then 1.0
    else
      var want, got := goal[f], Achieved(plate, f);
      assert want / got <= 1.0 by {
        assert want / got * got == want;
      }
      assert want / got == 1.0 ==> got == want by {
        assert want / got * got == want;
      }
      FieldScore(want, got)
  }

  /** `min(1, want / got)`: the score of a non-sugar field. */
  function FieldScore(want: real, got: real): real
    requires got > 0.0
  {
    Min(1.0, want / got)
  }

  /** Position of a field in the order the `Nutrition` type declares the fields. */
  function Rank(f: Field): nat
  {
    match f
    case Protein => 0
    case Carbs => 1
    case Fat => 2
    case Sugar => 3
    case Vitamins => 4
  }

  /** The first field of a non-empty set, in declaration order. */
  function First(s: set<Field>): (f: Field)
    requires s != {}
    ensures f in s && forall g :: g in s ==> Rank(f) <= Rank(g)
  {
    if Protein in s then Protein
    else if Carbs in s then Carbs
    else if Fat in s then Fat
    else if Sugar in s then Sugar
    else
      var g :| g in s;
      assert g == Vitamins by {
        if g == Protein {} else if g == Carbs {} else if g == Fat {} else if g == Sugar {}
      }
      Vitamins
  }

  /** Score of `f` when it is a met goal field, else nothing. */
  function ScoreIfMet(goal: map<Field, real>, plate: map<Field, real>, f: Field): real
    requires TargetsPositive(goal)
  {
    if f in goal && Met(goal, plate, f) then Score(goal, plate, f) else 0.0
  }

  /**
   * The summed scores of the met goal fields in `s`.  It is defined by taking
   * fields in declaration order; `ScoreSumInsert` shows that any visiting
   * order gives the same sum.
   */
  function ScoreSum(goal: map<Field, real>, plate: map<Field, real>, s: set<Field>): real
    requires TargetsPositive(goal)
    decreases s
  {
    if s == {} then 0.0
    else
      var f := First(s);
      ScoreIfMet(goal, plate, f) + ScoreSum(goal, plate, s - {f})
  }

  /** Visiting one more field, whichever it is, adds exactly its score to the sum. */
  lemma {:induction false} ScoreSumInsert(goal: map<Field, real>, plate: map<Field, real>, s: set<Field>, k: Field)
    requires TargetsPositive(goal) && k !in s
    ensures ScoreSum(goal, plate, s + {k}) == ScoreSum(goal, plate, s) + ScoreIfMet(goal, plate, k)
    decreases s
  {
    var f := First(s + {k});
    if f != k {
      assert f in s;
      assert First(s) == f;
      assert (s + {k}) - {f} == (s - {f}) + {k};
      ScoreSumInsert(goal, plate, s - {f}, k);
    } else {
      assert (s + {k}) - {f} == s;
    }
  }

  /**
   * The summed score of `s` lies between 0 and `|s|`, is positive when `s`
   * is not empty, and reaches `|s|` exactly when every field of `s` scores 1.
   */
  lemma {:induction false} ScoreSumBounds(goal: map<Field, real>, plate: map<Field, real>, s: set<Field>)
    requires TargetsPositive(goal)
    requires forall g :: g in s ==> g in goal && Met(goal, plate, g)
    ensures 0.0 <= ScoreSum(goal, plate, s) <= |s| as real
    ensures s != {} ==> ScoreSum(goal, plate, s) > 0.0
    ensures ScoreSum(goal, plate, s) == |s| as real <==> forall g :: g in s ==> Score(goal, plate, g) == 1.0
    decreases s
  {
    if s != {} {
      var f := First(s);
      var rest := s - {f};
      ScoreSumBounds(goal, plate, rest);
      assert |s| == |rest| + 1;
    }
  }

  /** `Math.round` for the non-negative values that arise here: halves round up. */
  function Round(x: real): int
  {
    (x + 0.5).Floor
  }

  /** `round(10 + 15 * total / (count || 1))`: the tip for a met goal from its summed scores. */
  function Payout(total: real, count: int): int
  {
    Round(10.0 + 15.0 * (total / (if count == 0 then 1 else count) as real))
  }

  /**
   * With a score total between 0 and the number of fields, the payout lies
   * between 10 and 25, and a perfect total over at least one field pays 25.
   */
  lemma PayoutBounds(total: real, count: int)
    requires count >= 0 && 0.0 <= total <= count as real
    ensures 10 <= Payout(total, count) <= 25
    ensures count >= 1 && total == count as real ==> Payout(total, count) == 25
  {
  }

  /**
   * The tip a plate earns against a goal.  It is 0 when the goal asks for
   * sugar and the plate has some, or when some other target exceeds what the
   * plate achieves; otherwise it is `round(10 + 15 * average score)`, where an
   * empty goal counts as one field (the `count || 1`).
   */
  function Tip(goal: map<Field, real>, plate: map<Field, real>): (tip: int)
    requires TargetsPositive(goal)
    ensures tip == 0 <==>
              (Sugar in goal && Achieved(plate, Sugar) > 0.0)
              || (exists f :: f in goal && f != Sugar && Achieved(plate, f) < goal[f])
    ensures tip == 0 || 10 <= tip <= 25
  {
    if !AllMet(goal, plate) then 0
    else
      ScoreSumBounds(goal, plate, goal.Keys);
      PayoutBounds(ScoreSum(goal, plate, goal.Keys), |goal.Keys|);
      Payout(ScoreSum(goal, plate, goal.Keys), |goal.Keys|)
  }

  /**
   * A goal with at least one field whose every non-sugar target is matched
   * exactly (and whose sugar, if asked for, is absent) earns the full tip.
   */
  lemma TipExactMatch(goal: map<Field, real>, plate: map<Field, real>)
    requires TargetsPositive(goal) && goal != map[]
    requires Sugar in goal ==> !(Achieved(plate, Sugar) > 0.0)
    requires forall f :: f in goal && f != Sugar ==> Achieved(plate, f) == goal[f]
    ensures Tip(goal, plate) == 25
  {
    assert AllMet(goal, plate);
    ScoreSumBounds(goal, plate, goal.Keys);
    assert goal.Keys != {} by {
      var f :| f in goal;
    }
    PayoutBounds(ScoreSum(goal, plate, goal.Keys), |goal.Keys|);
  }

  /**
   * Worked cases for one protein target of 20: exactly 20 earns 25, 40 scores
   * 0.5 and earns round(17.5) = 18, and 10 misses the target and earns 0.
   */
  lemma TipProteinCases(n: Nutrition)
    ensures n.protein == 20.0 ==> Tip(map[Protein := 20.0], n.ToMap()) == 25
    ensures n.protein == 40.0 ==> Tip(map[Protein := 20.0], n.ToMap()) == 18
    ensures n.protein == 10.0 ==> Tip(map[Protein := 20.0], n.ToMap()) == 0
  {
    var goal := map[Protein := 20.0];
    var plate := n.ToMap();
    assert goal.Keys == {Protein};
    if n.protein == 20.0 {
      TipExactMatch(goal, plate);
    } else if n.protein == 40.0 {
      assert AllMet(goal, plate);
      assert Score(goal, plate, Protein) == 0.5;
      assert ScoreSum(goal, plate, goal.Keys) == 0.5;
    }
  }

  /** A sugar-free goal is met by a plate without sugar and failed by one with any. */
  lemma TipSugarCases(n: Nutrition)
    ensures n.sugar == 0.0 ==> Tip(map[Sugar := 0.0], n.ToMap()) == 25
    ensures n.sugar > 0.0 ==> Tip(map[Sugar := 0.0], n.ToMap()) == 0
  {
    if n.sugar == 0.0 {
      assert Sugar in map[Sugar := 0.0];
      TipExactMatch(map[Sugar := 0.0], n.ToMap());
    }
  }

  /**
   * One loop step: visiting a met key of the pending set adds its score to the
   * sum over the keys already visited.
   */
  lemma Visit(goal: map<Field, real>, plate: map<Field, real>, pending: set<Field>, key: Field)
    requires TargetsPositive(goal) && pending <= goal.Keys && key in pending && Met(goal, plate, key)
    ensures ScoreSum(goal, plate, goal.Keys - (pending - {key}))
            == ScoreSum(goal, plate, goal.Keys - pending) + Score(goal, plate, key)
  {
    assert goal.Keys - (pending - {key}) == (goal.Keys - pending) + {key};
    ScoreSumInsert(goal, plate, goal.Keys - pending, key);
  }

  /** Once no key is pending and every key was met, the loop's running totals give `Tip`. */
  lemma TipFromTotals(goal: map<Field, real>, plate: map<Field, real>, pending: set<Field>, total: real, count: int)
    requires TargetsPositive(goal) && pending == {}
    requires forall g :: g in goal && g !in pending ==> Met(goal, plate, g)
    requires total == ScoreSum(goal, plate, goal.Keys - pending) && count == |goal.Keys| - |pending|
    ensures Tip(goal, plate) == Payout(total, count)
  {
  }

  /**
   * The loop of `calculateTip`.  Keys are visited in an unspecified order (the
   * choice `:|` stands for the `for...in` order); the loop stops at the first
   * unmet field.  Whatever the order, the result is `Tip(goal, plate)`.
   */
  method CalculateTip(goal: map<Field, real>, plate: map<Field, real>) returns (tip: int)
    requires TargetsPositive(goal)
    ensures tip == Tip(goal, plate)
  {
    var allMet := true;
    var totalPercent := 0.0;
    var count := 0;
    var pending := goal.Keys;
    while pending != {}
      invariant pending <= goal.Keys
      invariant forall g :: g in goal && g !in pending ==> Met(goal, plate, g)
      invariant totalPercent == ScoreSum(goal, plate, goal.Keys - pending)
      invariant count == |goal.Keys| - |pending|
      invariant allMet
      decreases |pending|
    {
      var key :| key in pending;
      if key == Sugar {
        if Achieved(plate, Sugar) > 0.0 {
          allMet := false;
          break;
        } else {
          Visit(goal, plate, pending, key);
          totalPercent := totalPercent + 1.0;
          count := count + 1;
        }
      } else {
        var want := goal[key];
        var got := Achieved(plate, key);
        if got < want {
          allMet := false;
          break;
        }
        Visit(goal, plate, pending, key);
        totalPercent := totalPercent + FieldScore(want, got);
        count := count + 1;
      }
      pending := pending - {key};
    }
    if !allMet {
      return 0;
    }
    TipFromTotals(goal, plate, pending, totalPercent, count);
    tip := Payout(totalPercent, count);
  }
}
