/** `PoseChecker` of src/check_pose.py: threshold checks, per-rule dispatch
    and the verdict string, as the code is written; beside it, the evaluator
    the code evidently intends (every rule visited, every rule type
    evaluated), used to exhibit the difference. */
module CheckPose {
  import opened Text
  import opened Geometry

  datatype Option<T> = None | Some(value: T)

  /** The exceptions that can escape `check_pose`. */
  datatype Error = ValueError | IndexError | UnboundLocalError

  datatype Result<T> = Ok(value: T) | Err(error: Error)

  /** A rule's `threshold` object; either key may be missing. */
  datatype Threshold = Threshold(min: Option<real>, max: Option<real>)

  /** The third entry of an angle rule's `keypoints`: an index or "Vertical". */
  datatype Ref = At(index: int) | Vertical

  /** One already-parsed entry of the configuration's `rules`, by its `type`;
      `OtherType` is a rule whose `type` is none of "angle", "distance",
      "distance_ratio" and "angle_between_vectors". */
  datatype Rule =
    | Angle(name: string, a: int, b: int, c: Ref, threshold: Threshold)
    | Distance(name: string, a: int, b: int, threshold: Threshold)
    | DistanceRatio(name: string, pair1: (int, int), pair2: (int, int), threshold: Threshold)
    | AngleBetweenVectors(name: string, vec1: (int, int), vec2: (int, int), threshold: Threshold)
    | OtherType(name: string, threshold: Threshold)

  /** How a call of `check_pose` ends: a verdict string, `None` (falling off
      the end of the method), or an exception. */
  datatype Outcome = Returned(verdict: string) | ReturnedNone | Raised(error: Error)

  // ---------------------------------------------------------------------
  // Thresholds

  /** The threshold names at least one bound. */
  predicate Bounded(t: Threshold)
  {
    t.min.Some? || t.max.Some?
  }

  /** A real lies within every bound the threshold names. */
  predicate InBounds(v: real, t: Threshold)
  {
    (t.min.None? || t.min.value <= v) && (t.max.None? || v <= t.max.value)
  }

  /** Reference meaning of "the metric satisfies the threshold" on floats:
      infinities pass only a missing bound on their side, NaN never passes. */
  predicate Meets(x: Float, t: Threshold)
  {
    match x
    case Finite(v) => InBounds(v, t)
    case PosInf => t.max.None?
    case NegInf => t.min.None?
    case NaN => false
  }

  /** `_check_threshold`: the four-way branch on which keys are present. */
  function CheckThreshold(value: Float, threshold: Threshold): (r: Result<bool>)
    ensures r.Err? <==> !Bounded(threshold)
    ensures r.Err? ==> r.error == ValueError
    ensures r.Ok? ==> (r.value <==> Meets(value, threshold))
  {
    if threshold.min.Some? && threshold.max.Some? then
      Ok(AtLeast(value, threshold.min.value) && AtMost(value, threshold.max.value))
    else if threshold.min.Some? then
      Ok(AtLeast(value, threshold.min.value))
    else if threshold.max.Some? then
      Ok(AtMost(value, threshold.max.value))
    else
      Err(ValueError)
  }

  /** With both keys present, line 17's chained comparison: the value
      passes exactly when it is finite and inside the closed interval, so a
      threshold whose minimum equals its maximum accepts that value alone. */
  lemma BothKeys(x: Float, lo: real, hi: real)
    ensures CheckThreshold(x, Threshold(Some(lo), Some(hi))) == Ok(x.Finite? && lo <= x.v <= hi)
    ensures lo == hi ==> CheckThreshold(x, Threshold(Some(lo), Some(hi))) == Ok(x == Finite(lo))
  {
    ChainedComparison(x, lo, hi);
  }

  // ---------------------------------------------------------------------
  // Resolving keypoints

  /** `keypoints[i]` is defined on the numpy array: negative indices count
      from the end. */
  predicate Indexable(kps: seq<Point>, i: int)
  {
    -|kps| <= i < |kps|
  }

  /** `keypoints[i]`, raising IndexError outside the array; inside it the
      index is taken modulo the length. */
  function Lookup(kps: seq<Point>, i: int): (r: Result<Point>)
    ensures r.Ok? <==> Indexable(kps, i)
    ensures r.Err? ==> r.error == IndexError
    ensures r.Ok? ==> r.value == kps[i % |kps|]
  {
    if 0 <= i < |kps| then Ok(kps[i])
    else if -|kps| <= i < 0 then Ok(kps[|kps| + i])
    else Err(IndexError)
  }

  /** The three points of an angle rule. For "Vertical" the third point is
      the vertex moved 100 units up the image, the vertex being read through
      the index `b` before `b` is rebound to a point. */
  function AnglePoints(kps: seq<Point>, a: int, b: int, c: Ref): (r: Result<(Point, Point, Point)>)
    ensures r.Ok? <==> Indexable(kps, a) && Indexable(kps, b) && (c.At? ==> Indexable(kps, c.index))
    ensures r.Err? ==> r.error == IndexError
    ensures r.Ok? ==> r.value.0 == Lookup(kps, a).value && r.value.1 == Lookup(kps, b).value
    ensures r.Ok? && c.Vertical? ==> r.value.2 == Point(r.value.1.x, r.value.1.y - 100.0)
    ensures r.Ok? && c.At? ==> r.value.2 == Lookup(kps, c.index).value
  {
    var third :=
      if c.Vertical? then
        (match Lookup(kps, b)
         case Ok(p) => Ok(Point(p.x, p.y - 100.0))
         case Err(e) => Err(e))
      else Lookup(kps, c.index);
    match third
    case Err(e) => Err(e)
    case Ok(pc) =>
      match Lookup(kps, a)
      case Err(e) => Err(e)
      case Ok(pa) =>
        match Lookup(kps, b)
        case Err(e) => Err(e)
        case Ok(pb) => Ok((pa, pb, pc))
  }

  /** The two points `keypoints[p.0]`, `keypoints[p.1]`. */
  function PointPair(kps: seq<Point>, p: (int, int)): (r: Result<(Point, Point)>)
    ensures r.Ok? <==> Indexable(kps, p.0) && Indexable(kps, p.1)
    ensures r.Err? ==> r.error == IndexError
    ensures r.Ok? ==> r.value.0 == Lookup(kps, p.0).value && r.value.1 == Lookup(kps, p.1).value
  {
    match Lookup(kps, p.0)
    case Err(e) => Err(e)
    case Ok(q0) =>
      match Lookup(kps, p.1)
      case Err(e) => Err(e)
      case Ok(q1) => Ok((q0, q1))
  }

  // ---------------------------------------------------------------------
  // One rule

  /** `f"{name} incorrect ({shown})"`, `shown` being the formatted metric and unit. */
  function Issue(name: string, shown: string): string
  {
    name + " incorrect (" + shown + ")"
  }

  /** An issue reads: the rule's name, " incorrect (", the shown metric,
      and a closing parenthesis; so the name and the metric can be read
      back from it. */
  lemma IssueParts(name: string, shown: string)
    ensures var m := Issue(name, shown);
      && |m| == |name| + 12 + |shown| + 1
      && m[..|name|] == name
      && m[|name|..|name| + 12] == " incorrect ("
      && m[|name| + 12..|m| - 1] == shown && m[|m| - 1] == ')'
  {
  }

  /** Test a metric and produce the issue to append, if any. */
  function Judge(metric: Float, t: Threshold, name: string, shown: string): (r: Result<Option<string>>)
    ensures r.Err? <==> !Bounded(t)
    ensures r.Err? ==> r.error == ValueError
    ensures r.Ok? ==> (r.value.None? <==> Meets(metric, t))
    ensures r.Ok? && r.value.Some? ==> r.value.value == Issue(name, shown)
  {
    match CheckThreshold(metric, t)
    case Err(e) => Err(e)
    case Ok(pass) => Ok(if pass then None else Some(Issue(name, shown)))
  }

  /** The angle an angle rule measures, once its points resolve. */
  function RuleAngle(kps: seq<Point>, rule: Rule, num: Numerics): Float
    requires rule.Angle? && AnglePoints(kps, rule.a, rule.b, rule.c).Ok?
  {
    var p := AnglePoints(kps, rule.a, rule.b, rule.c).value;
    num.angle(p.0, p.1, p.2)
  }

  /** One pass of the loop body of `check_pose`, as written: `Some(m)` is the
      issue appended, `None` leaves `issues` unchanged. The distance branch
      reads the locals `a` and `b` before anything assigned them; the
      distance-ratio and vector-angle branches compare the whole rule with a
      string and so never run. */
  function RuleStep(rule: Rule, kps: seq<Point>, num: Numerics): (r: Result<Option<string>>)
    ensures rule.Distance? ==> r == Err(UnboundLocalError)
    ensures !rule.Angle? && !rule.Distance? ==> r == Ok(None)
    ensures rule.Angle? ==>
      (r.Err? <==> AnglePoints(kps, rule.a, rule.b, rule.c).Err? || !Bounded(rule.threshold))
    ensures rule.Angle? && AnglePoints(kps, rule.a, rule.b, rule.c).Err? ==> r == Err(IndexError)
    ensures rule.Angle? && AnglePoints(kps, rule.a, rule.b, rule.c).Ok? && !Bounded(rule.threshold) ==>
      r == Err(ValueError)
    ensures rule.Angle? && r.Ok? ==>
      (r.value.None? <==> Meets(RuleAngle(kps, rule, num), rule.threshold)) &&
      (r.value.Some? ==>
         r.value.value == Issue(rule.name, num.fixed1(RuleAngle(kps, rule, num)) + " degrees"))
  {
    match rule
    case Angle(name, a, b, c, t) =>
      (match AnglePoints(kps, a, b, c)
       case Err(e) => Err(e)
       case Ok(p) =>
         var angle := num.angle(p.0, p.1, p.2);
         Judge(angle, t, name, num.fixed1(angle) + " degrees"))
    case Distance(_, _, _, _) => Err(UnboundLocalError)
    case DistanceRatio(_, _, _, _) => Ok(None)
    case AngleBetweenVectors(_, _, _, _) => Ok(None)
    case OtherType(_, _) => Ok(None)
  }

  // ---------------------------------------------------------------------
  // The verdict

  function IssueList(o: Option<string>): seq<string>
  {
    if o.Some? then [o.value] else []
  }

  /** The returned string: "Correct" without issues, otherwise
      "Incorrect: " and the issues in order, separated by ", ". */
  function Verdict(issues: seq<string>): (v: string)
    ensures v == "Correct" <==> issues == []
    ensures issues != [] ==> v == "Incorrect: " + Join(issues, ", ")
  {
    if issues == [] then "Correct"
    else
      var v := "Incorrect: " + Join(issues, ", ");
      assert v[0] == 'I';
      v
  }

  /** A verdict with issues begins with "Incorrect: " and the first issue
      and ends with the last issue. */
  lemma VerdictEnds(issues: seq<string>)
    requires issues != []
    ensures "Incorrect: " + issues[0] <= Verdict(issues)
    ensures var v, last := Verdict(issues), issues[|issues| - 1];
      |last| <= |v| && v[|v| - |last|..] == last
  {
    var j, first, last := Join(issues, ", "), issues[0], issues[|issues| - 1];
    JoinEnds(issues, ", ");
    var v := "Incorrect: " + j;
    assert Verdict(issues) == v;
    assert v[..11 + |first|] == "Incorrect: " + j[..|first|];
    assert v[|v| - |last|..] == j[|j| - |last|..];
  }

  /** What `check_pose` returns as written: the `return` sits inside the
      loop, so the first rule alone decides, and no rules means `None`. */
  function AsWrittenOutcome(rules: seq<Rule>, kps: seq<Point>, num: Numerics): (o: Outcome)
    ensures o == ReturnedNone <==> rules == []
    ensures o.Raised? ==> rules[0].Angle? || rules[0].Distance?
    ensures rules != [] && rules[0].Distance? ==> o == Raised(UnboundLocalError)
    ensures rules != [] && !rules[0].Angle? && !rules[0].Distance? ==> o == Returned("Correct")
  {
    if rules == [] then ReturnedNone
    else
      match RuleStep(rules[0], kps, num)
      case Err(e) => Raised(e)
      case Ok(issue) => Returned(Verdict(IssueList(issue)))
  }

  /** Whatever follows the first rule has no effect on the outcome. */
  lemma LaterRulesIgnored(rules: seq<Rule>, more: seq<Rule>, kps: seq<Point>, num: Numerics)
    requires rules != []
    ensures AsWrittenOutcome(rules + more, kps, num) == AsWrittenOutcome(rules[..1], kps, num)
  {
    assert (rules + more)[0] == rules[0] == rules[..1][0];
  }

  /** A lone angle rule: "Correct" exactly when its angle meets the threshold,
      otherwise the one issue; a threshold with no bound raises ValueError
      only here, when the rule is evaluated. */
  lemma {:induction false} LoneAngleRule(rule: Rule, kps: seq<Point>, num: Numerics)
    requires rule.Angle? && AnglePoints(kps, rule.a, rule.b, rule.c).Ok?
    ensures !Bounded(rule.threshold) ==> AsWrittenOutcome([rule], kps, num) == Raised(ValueError)
    ensures Bounded(rule.threshold) ==>
      (AsWrittenOutcome([rule], kps, num) == Returned("Correct")
       <==> Meets(RuleAngle(kps, rule, num), rule.threshold))
    ensures Bounded(rule.threshold) && !Meets(RuleAngle(kps, rule, num), rule.threshold) ==>
      AsWrittenOutcome([rule], kps, num) ==
      Returned("Incorrect: " + Issue(rule.name, num.fixed1(RuleAngle(kps, rule, num)) + " degrees"))
  {
    var step := RuleStep(rule, kps, num);
    if Bounded(rule.threshold) {
      assert step.Ok?;
      assert IssueList(step.value) == [] <==> step.value.None?;
      if step.value.Some? {
        assert Join([step.value.value], ", ") == step.value.value;
      }
    } else {
      var t := rule.threshold;
      assert CheckThreshold(RuleAngle(kps, rule, num), t) == Err(ValueError);
    }
  }

  // ---------------------------------------------------------------------
  // The evaluator the code evidently intends

  /** The distance a distance rule measures, once its points resolve. */
  function RuleDistance(kps: seq<Point>, rule: Rule, num: Numerics): Float
    requires rule.Distance? && PointPair(kps, (rule.a, rule.b)).Ok?
  {
    var p := PointPair(kps, (rule.a, rule.b)).value;
    num.norm(p.0, p.1)
  }

  /** The ratio a distance-ratio rule measures, once its points resolve. */
  function RuleRatio(kps: seq<Point>, rule: Rule, num: Numerics): Float
    requires rule.DistanceRatio? && PointPair(kps, rule.pair1).Ok? && PointPair(kps, rule.pair2).Ok?
  {
    var p, q := PointPair(kps, rule.pair1).value, PointPair(kps, rule.pair2).value;
    Ratio(num, num.norm(p.0, p.1), num.norm(q.0, q.1))
  }

  /** The angle a vector-angle rule measures, once its points resolve. */
  function RuleVectorAngle(kps: seq<Point>, rule: Rule, num: Numerics): Float
    requires rule.AngleBetweenVectors? && PointPair(kps, rule.vec1).Ok? && PointPair(kps, rule.vec2).Ok?
  {
    var p, q := PointPair(kps, rule.vec1).value, PointPair(kps, rule.vec2).value;
    num.vectorAngle(p.0, p.1, q.0, q.1)
  }

  /** The rule step with every branch doing what it evidently means to do:
      a distance rule measures between its own two keypoints, a
      distance-ratio rule divides its two distances (a zero denominator
      gives +infinity), a vector-angle rule measures its two vectors. */
  function IntendedStep(rule: Rule, kps: seq<Point>, num: Numerics): (r: Result<Option<string>>)
    ensures rule.Angle? || rule.OtherType? ==> r == RuleStep(rule, kps, num)
    ensures rule.Distance? ==>
      (r.Ok? <==> Indexable(kps, rule.a) && Indexable(kps, rule.b) && Bounded(rule.threshold))
    ensures rule.DistanceRatio? ==>
      (r.Ok? <==> PointPair(kps, rule.pair1).Ok? && PointPair(kps, rule.pair2).Ok? && Bounded(rule.threshold))
    ensures rule.AngleBetweenVectors? ==>
      (r.Ok? <==> PointPair(kps, rule.vec1).Ok? && PointPair(kps, rule.vec2).Ok? && Bounded(rule.threshold))
  {
    match rule
    case Distance(name, a, b, t) =>
      (match PointPair(kps, (a, b))
       case Err(e) => Err(e)
       case Ok(p) =>
         var distance := num.norm(p.0, p.1);
         Judge(distance, t, name, num.fixed1(distance) + " units"))
    case DistanceRatio(name, pair1, pair2, t) =>
      (match PointPair(kps, pair1)
       case Err(e) => Err(e)
       case Ok(p) =>
         match PointPair(kps, pair2)
         case Err(e) => Err(e)
         case Ok(q) =>
           var ratio := Ratio(num, num.norm(p.0, p.1), num.norm(q.0, q.1));
           Judge(ratio, t, name, "ratio " + num.fixed2(ratio)))
    case AngleBetweenVectors(name, vec1, vec2, t) =>
      (match PointPair(kps, vec1)
       case Err(e) => Err(e)
       case Ok(p) =>
         match PointPair(kps, vec2)
         case Err(e) => Err(e)
         case Ok(q) =>
           var angle := num.vectorAngle(p.0, p.1, q.0, q.1);
           Judge(angle, t, name, num.fixed1(angle) + " degrees"))
    case _ => RuleStep(rule, kps, num)
  }

  /** What the intended step reports for the rule types the code as written
      never evaluates: IndexError when a keypoint does not resolve, else
      ValueError when the threshold has no bound, else an issue exactly when
      the metric fails the threshold,
      with the distance in `:.1f` and " units", the ratio as "ratio " and
      `:.2f`, the vector angle in `:.1f` and " degrees". */
  lemma IntendedStepReports(rule: Rule, kps: seq<Point>, num: Numerics)
    ensures var r := IntendedStep(rule, kps, num);
      rule.Distance? ==>
        (PointPair(kps, (rule.a, rule.b)).Err? ==> r == Err(IndexError)) &&
        (PointPair(kps, (rule.a, rule.b)).Ok? && !Bounded(rule.threshold) ==> r == Err(ValueError))
    ensures var r := IntendedStep(rule, kps, num);
      rule.DistanceRatio? ==>
        (PointPair(kps, rule.pair1).Err? || PointPair(kps, rule.pair2).Err? ==> r == Err(IndexError)) &&
        (PointPair(kps, rule.pair1).Ok? && PointPair(kps, rule.pair2).Ok? && !Bounded(rule.threshold) ==>
           r == Err(ValueError))
    ensures var r := IntendedStep(rule, kps, num);
      rule.AngleBetweenVectors? ==>
        (PointPair(kps, rule.vec1).Err? || PointPair(kps, rule.vec2).Err? ==> r == Err(IndexError)) &&
        (PointPair(kps, rule.vec1).Ok? && PointPair(kps, rule.vec2).Ok? && !Bounded(rule.threshold) ==>
           r == Err(ValueError))
    ensures var r := IntendedStep(rule, kps, num);
      rule.Distance? && r.Ok? ==>
        (r.value.None? <==> Meets(RuleDistance(kps, rule, num), rule.threshold)) &&
        (r.value.Some? ==>
           r.value.value == Issue(rule.name, num.fixed1(RuleDistance(kps, rule, num)) + " units"))
    ensures var r := IntendedStep(rule, kps, num);
      rule.DistanceRatio? && r.Ok? ==>
        (r.value.None? <==> Meets(RuleRatio(kps, rule, num), rule.threshold)) &&
        (r.value.Some? ==>
           r.value.value == Issue(rule.name, "ratio " + num.fixed2(RuleRatio(kps, rule, num))))
    ensures var r := IntendedStep(rule, kps, num);
      rule.AngleBetweenVectors? && r.Ok? ==>
        (r.value.None? <==> Meets(RuleVectorAngle(kps, rule, num), rule.threshold)) &&
        (r.value.Some? ==>
           r.value.value == Issue(rule.name, num.fixed1(RuleVectorAngle(kps, rule, num)) + " degrees"))
  {
  }

  /** `dist1 / dist2 if dist2 != 0 else float("inf")`. */
  function Ratio(num: Numerics, dist1: Float, dist2: Float): (r: Float)
    ensures dist2 == Finite(0.0) ==> r == PosInf
    ensures dist2 != Finite(0.0) ==> r == num.quotient(dist1, dist2)
  {
    if dist2 != Finite(0.0) then num.quotient(dist1, dist2) else PosInf
  }

  /** A distance-ratio rule whose second pair is zero apart is a violation
      under any threshold with a maximum. */
  lemma ZeroDenominatorViolates(rule: Rule, kps: seq<Point>, num: Numerics)
    requires rule.DistanceRatio? && rule.threshold.max.Some?
    requires PointPair(kps, rule.pair1).Ok? && PointPair(kps, rule.pair2).Ok?
    requires var q := PointPair(kps, rule.pair2).value; num.norm(q.0, q.1) == Finite(0.0)
    ensures IntendedStep(rule, kps, num) ==
      Ok(Some(Issue(rule.name, "ratio " + num.fixed2(PosInf))))
  {
    var p := PointPair(kps, rule.pair1).value;
    var q := PointPair(kps, rule.pair2).value;
    assert Ratio(num, num.norm(p.0, p.1), num.norm(q.0, q.1)) == PosInf;
  }

  /** The issues of all rules in order, or the first exception raised. */
  function AllIssues(rules: seq<Rule>, kps: seq<Point>, num: Numerics): Result<seq<string>>
    decreases |rules|
  {
    if rules == [] then Ok([])
    else
      match IntendedStep(rules[0], kps, num)
      case Err(e) => Err(e)
      case Ok(issue) =>
        match AllIssues(rules[1..], kps, num)
        case Err(e) => Err(e)
        case Ok(rest) => Ok(IssueList(issue) + rest)
  }

  /** Every issue is the message of some rule. */
  lemma {:induction false} AllIssuesFromRules(rules: seq<Rule>, kps: seq<Point>, num: Numerics)
    requires AllIssues(rules, kps, num).Ok?
    ensures var issues := AllIssues(rules, kps, num).value;
      forall j :: 0 <= j < |issues| ==>
        exists k :: 0 <= k < |rules| && IntendedStep(rules[k], kps, num) == Ok(Some(issues[j]))
    decreases |rules|
  {
    if rules != [] {
      AllIssuesFromRules(rules[1..], kps, num);
      assert forall k :: 0 <= k < |rules| - 1 ==> rules[1..][k] == rules[k + 1];
    }
  }

  /** No exception exactly when no rule raises. */
  lemma {:induction false} AllIssuesOk(rules: seq<Rule>, kps: seq<Point>, num: Numerics)
    ensures AllIssues(rules, kps, num).Ok? <==>
      forall k :: 0 <= k < |rules| ==> IntendedStep(rules[k], kps, num).Ok?
    decreases |rules|
  {
    if rules != [] {
      AllIssuesOk(rules[1..], kps, num);
      assert forall k :: 0 <= k < |rules| - 1 ==> rules[1..][k] == rules[k + 1];
    }
  }

  /** Without an exception, no issue exactly when every rule passes. */
  lemma {:induction false} AllIssuesNone(rules: seq<Rule>, kps: seq<Point>, num: Numerics)
    requires AllIssues(rules, kps, num).Ok?
    ensures AllIssues(rules, kps, num).value == [] <==>
      forall k :: 0 <= k < |rules| ==> IntendedStep(rules[k], kps, num) == Ok(None)
    decreases |rules|
  {
    if rules != [] {
      AllIssuesNone(rules[1..], kps, num);
      assert forall k :: 0 <= k < |rules| - 1 ==> rules[1..][k] == rules[k + 1];
    }
  }

  /** The exception raised is that of the first rule that raises. */
  lemma {:induction false} AllIssuesFirstError(rules: seq<Rule>, kps: seq<Point>, num: Numerics)
    requires AllIssues(rules, kps, num).Err?
    ensures exists k ::
      && 0 <= k < |rules|
      && IntendedStep(rules[k], kps, num) == Err(AllIssues(rules, kps, num).error)
      && forall j :: 0 <= j < k ==> IntendedStep(rules[j], kps, num).Ok?
    decreases |rules|
  {
    if IntendedStep(rules[0], kps, num).Ok? {
      AllIssuesFirstError(rules[1..], kps, num);
      var e := AllIssues(rules, kps, num).error;
      var k :| 0 <= k < |rules[1..]| && IntendedStep(rules[1..][k], kps, num) == Err(e) &&
        forall j :: 0 <= j < k ==> IntendedStep(rules[1..][j], kps, num).Ok?;
      assert IntendedStep(rules[k + 1], kps, num) == Err(e);
      forall j | 0 <= j < k + 1
        ensures IntendedStep(rules[j], kps, num).Ok?
      {
        if j > 0 {
          assert rules[j] == rules[1..][j - 1];
        }
      }
    } else {
      assert IntendedStep(rules[0], kps, num) == Err(AllIssues(rules, kps, num).error);
    }
  }

  /** Evaluating one more rule extends the issues, or raises. */
  lemma {:induction false} AllIssuesSnoc(rules: seq<Rule>, rule: Rule, kps: seq<Point>, num: Numerics)
    ensures AllIssues(rules + [rule], kps, num) ==
      match AllIssues(rules, kps, num)
      case Err(e) => Err(e)
      case Ok(issues) =>
        match IntendedStep(rule, kps, num)
        case Err(e) => Err(e)
        case Ok(o) => Ok(issues + IssueList(o))
    decreases |rules|
  {
    if rules == [] {
      assert [] + [rule] == [rule];
      assert [rule][1..] == [];
      match IntendedStep(rule, kps, num)
      case Err(e) =>
      case Ok(o) => assert IssueList(o) + [] == [] + IssueList(o);
    } else {
      assert (rules + [rule])[0] == rules[0];
      assert (rules + [rule])[1..] == rules[1..] + [rule];
      AllIssuesSnoc(rules[1..], rule, kps, num);
      match IntendedStep(rules[0], kps, num)
      case Err(e) =>
      case Ok(o) =>
        match AllIssues(rules[1..], kps, num)
        case Err(e) =>
        case Ok(rest) =>
          match IntendedStep(rule, kps, num)
          case Err(e) =>
          case Ok(o') =>
            assert IssueList(o) + (rest + IssueList(o')) == (IssueList(o) + rest) + IssueList(o');
    }
  }

  /** Once a prefix raises, later rules do not matter. */
  lemma {:induction false} AllIssuesRaisedPrefix(rules: seq<Rule>, more: seq<Rule>, kps: seq<Point>, num: Numerics)
    requires AllIssues(rules, kps, num).Err?
    ensures AllIssues(rules + more, kps, num) == AllIssues(rules, kps, num)
    decreases |rules|
  {
    assert (rules + more)[0] == rules[0];
    assert (rules + more)[1..] == rules[1..] + more;
    if IntendedStep(rules[0], kps, num).Ok? {
      AllIssuesRaisedPrefix(rules[1..], more, kps, num);
    }
  }

  /** The intended outcome: all rules, then the verdict. */
  function AllRulesOutcome(rules: seq<Rule>, kps: seq<Point>, num: Numerics): Outcome
  {
    match AllIssues(rules, kps, num)
    case Err(e) => Raised(e)
    case Ok(issues) => Returned(Verdict(issues))
  }

  /** The intended outcome is never `None`; it is a verdict exactly when no
      rule raises, and "Correct" exactly when every rule passes. */
  lemma AllRulesVerdict(rules: seq<Rule>, kps: seq<Point>, num: Numerics)
    ensures AllRulesOutcome(rules, kps, num) != ReturnedNone
    ensures AllRulesOutcome(rules, kps, num).Returned? <==>
      forall k :: 0 <= k < |rules| ==> IntendedStep(rules[k], kps, num).Ok?
    ensures AllRulesOutcome(rules, kps, num) == Returned("Correct") <==>
      forall k :: 0 <= k < |rules| ==> IntendedStep(rules[k], kps, num) == Ok(None)
  {
    AllIssuesOk(rules, kps, num);
    if AllIssues(rules, kps, num).Ok? {
      AllIssuesNone(rules, kps, num);
    }
  }

  /** The intended evaluator agrees with the code as written on a single
      angle rule or a single rule of an unknown type. */
  lemma {:induction false} AgreeOnOneRule(rule: Rule, kps: seq<Point>, num: Numerics)
    requires rule.Angle? || rule.OtherType?
    ensures AllRulesOutcome([rule], kps, num) == AsWrittenOutcome([rule], kps, num)
  {
    AllIssuesSnoc([], rule, kps, num);
    assert [] + [rule] == [rule];
  }

  /** Two violated rules: both messages appear, in rule order. */
  lemma {:induction false} AllIssuesPair(r1: Rule, r2: Rule, kps: seq<Point>, num: Numerics)
    requires IntendedStep(r1, kps, num).Ok? && IntendedStep(r2, kps, num).Ok?
    ensures AllIssues([r1, r2], kps, num) ==
      Ok(IssueList(IntendedStep(r1, kps, num).value) + IssueList(IntendedStep(r2, kps, num).value))
  {
    var o2 := IntendedStep(r2, kps, num).value;
    assert AllIssues([r2], kps, num) == Ok(IssueList(o2)) by {
      assert [r2][1..] == [];
      assert AllIssues([], kps, num) == Ok([]);
      assert IssueList(o2) + [] == IssueList(o2);
    }
    assert [r1, r2][1..] == [r2];
  }

  lemma {:induction false} TwoViolations(r1: Rule, r2: Rule, kps: seq<Point>, num: Numerics, m1: string, m2: string)
    requires IntendedStep(r1, kps, num) == Ok(Some(m1))
    requires IntendedStep(r2, kps, num) == Ok(Some(m2))
    ensures AllRulesOutcome([r1, r2], kps, num) == Returned("Incorrect: " + m1 + ", " + m2)
  {
    AllIssuesPair(r1, r2, kps, num);
    assert [m1] + [m2] == [m1, m2];
    assert Join([m1, m2], ", ") == m1 + ", " + m2 by {
      assert [m1, m2][1..] == [m2];
    }
  }

  /** The return inside the loop: a passing first rule hides a violated
      second one. */
  lemma {:induction false} ReturnInsideLoopHidesLaterRules(r1: Rule, r2: Rule, kps: seq<Point>, num: Numerics, m: string)
    requires RuleStep(r1, kps, num) == Ok(None) && IntendedStep(r1, kps, num) == Ok(None)
    requires IntendedStep(r2, kps, num) == Ok(Some(m))
    ensures AsWrittenOutcome([r1, r2], kps, num) == Returned("Correct")
    ensures AllRulesOutcome([r1, r2], kps, num) == Returned("Incorrect: " + m)
  {
    AllIssuesPair(r1, r2, kps, num);
    assert [] + [m] == [m];
    assert [r1, r2][0] == r1;
  }

  /** The dead distance-ratio branch: a zero denominator under a maximum
      goes unreported as written, and is reported as intended. */
  lemma RatioBranchNeverRuns(rule: Rule, kps: seq<Point>, num: Numerics)
    requires rule.DistanceRatio? && rule.threshold.max.Some?
    requires PointPair(kps, rule.pair1).Ok? && PointPair(kps, rule.pair2).Ok?
    requires var q := PointPair(kps, rule.pair2).value; num.norm(q.0, q.1) == Finite(0.0)
    ensures AsWrittenOutcome([rule], kps, num) == Returned("Correct")
    ensures AllRulesOutcome([rule], kps, num).Returned?
    ensures AllRulesOutcome([rule], kps, num).verdict != "Correct"
  {
    ZeroDenominatorViolates(rule, kps, num);
    AllIssuesSnoc([], rule, kps, num);
    assert [] + [rule] == [rule];
  }

  /** The unbound locals of the distance branch: a well-formed distance rule
      raises as written, and is evaluated as intended. */
  lemma DistanceBranchRaises(rule: Rule, kps: seq<Point>, num: Numerics)
    requires rule.Distance? && Indexable(kps, rule.a) && Indexable(kps, rule.b) && Bounded(rule.threshold)
    ensures AsWrittenOutcome([rule], kps, num) == Raised(UnboundLocalError)
    ensures AllRulesOutcome([rule], kps, num).Returned?
  {
    AllIssuesSnoc([], rule, kps, num);
    assert [] + [rule] == [rule];
  }

  // ---------------------------------------------------------------------
  // The pose-checking object

  /** `PoseChecker`: its rules are fixed once constructed (the loading of
      the JSON file is not modelled; the parsed rules are passed in). */
  class PoseChecker {
    const rules: seq<Rule>

    constructor (rules: seq<Rule>)
      ensures this.rules == rules
    {
      this.rules := rules;
    }

    /** `check_pose` as written. */
    method CheckPose(keypoints: seq<Point>, num: Numerics) returns (outcome: Outcome)
      ensures outcome == AsWrittenOutcome(rules, keypoints, num)
    {
      var issues: seq<string> := [];
      for i := 0 to |rules|
        invariant i == 0 && issues == []
      {
        var step := RuleStep(rules[i], keypoints, num);
        if step.Err? {
          return Raised(step.error);
        }
        if step.value.Some? {
          issues := issues + [step.value.value];
        }
        return Returned(Verdict(issues));
      }
      return ReturnedNone;
    }

    /** `check_pose` with the `return` after the loop and every rule type
      evaluated. */
    method CheckPoseAllRules(keypoints: seq<Point>, num: Numerics) returns (outcome: Outcome)
      ensures outcome == AllRulesOutcome(rules, keypoints, num)
    {
      var issues: seq<string> := [];
      for i := 0 to |rules|
        invariant AllIssues(rules[..i], keypoints, num) == Ok(issues)
      {
        var step := IntendedStep(rules[i], keypoints, num);
        AllIssuesSnoc(rules[..i], rules[i], keypoints, num);
        assert rules[..i] + [rules[i]] == rules[..i + 1];
        if step.Err? {
          assert rules == rules[..i + 1] + rules[i + 1..];
          AllIssuesRaisedPrefix(rules[..i + 1], rules[i + 1..], keypoints, num);
          return Raised(step.error);
        }
        ghost var before := issues;
        if step.value.Some? {
          issues := issues + [step.value.value];
        }
        assert issues == before + IssueList(step.value);
      }
      assert rules[..|rules|] == rules;
      return Returned(Verdict(issues));
    }
  }
}
