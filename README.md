# Pose checking and label layout of posture-ai

This project models the two core pieces of posture-ai:

- **The pose checker.** `PoseChecker.check_pose` applies configured rules to the keypoints of one detected person. The rules are angles at a joint, distances, distance ratios and angles between vectors. Each rule has a threshold with an optional minimum and an optional maximum. The result is the verdict string shown above or below that person's head.
- **The label layout.** `Visualizer.annotate_frame` wraps each verdict into lines no wider than 300 pixels where it can. It puts the first line's baseline above the head when the head's y minus the block height minus 10 is not negative; otherwise it starts the first baseline 10 pixels below the head. Above the head the baseline is never above row 0, but the first line's glyphs and the box can reach up to a text height plus the padding above it. It keeps the block inside the frame horizontally whenever its widest line fits; a wider block starts at the left edge. Then it draws a background box and the lines.

There are four modules:

- `Text` has Python's `" ".join` and `s.split(" ")`, with their round trips.
- `Geometry` has keypoints and float metrics. A metric is finite, an infinity or NaN, and comparisons follow Python semantics. It also holds the numeric routines the rules call, passed in as the fields of a `Numerics` value.
- `CheckPose` models `src/check_pose.py`:
  - `_check_threshold` as a function.
  - `check_pose` as a method of the class `PoseChecker`, whose `for` loop returns inside its body just as the source does.
  - The evaluator the code evidently intends, used to exhibit the defects listed under Findings.
- `Visualizer` models the layout arithmetic of `annotate_frame`:
  - The greedy word wrap is a loop, proved against a step function (`WrapStep`, `WrapPrefix`, `Wrapped`).
  - The height, position and box formulas are functions.
  - The horizontal clamp and the line-drawing loop are methods.
  - The loop over people yields one `Annotation` per labelled person.
  - Text measurement (`cv2.getTextSize` with the method's fixed font settings) is a parameter `measure`.

The model follows the code as written, including where it departs from what it evidently intends:

- **Only the first rule runs.** The `return` at `src/check_pose.py:74` sits inside the loop, so only the first rule decides the verdict (`AsWrittenOutcome`).
- **Bad thresholds surface late.** A threshold with neither bound raises `ValueError` only when its rule is evaluated, not when the rules are loaded (`LoneAngleRule`).
- **Missing keypoints raise.** A keypoint index outside the array raises `IndexError`; no verdict is returned (`AnglePoints`).
- **Zero-length vectors give NaN.** `calculate_angle` divides by a zero norm and yields NaN, and NaN fails every threshold (`Meets`).

## Model

| member | source | states |
|---|---|---|
| Geometry.AtLeast | src/check_pose.py:17-19 | Python's `x >= m` on a float: true for +inf, false for -inf and NaN, by value otherwise |
| Geometry.AtMost | src/check_pose.py:17-21 | Python's `x <= m` on a float: true for -inf, false for +inf and NaN, by value otherwise |
| Geometry.ChainedComparison | src/check_pose.py:17 | `lo <= x <= hi` holds only for a finite x in the closed interval; `x >= m` and `x <= m` together hold only for x equal to m |
| CheckPose.BothKeys | src/check_pose.py:16-17 | with both keys, the value passes exactly when it is finite and inside the closed interval; a minimum equal to the maximum accepts that value alone |
| CheckPose.CheckThreshold | src/check_pose.py:14-23 | raises ValueError exactly when the threshold has neither `min` nor `max`; otherwise it is true exactly when the value satisfies every bound present, with NaN failing every bound and an infinity passing only a missing bound on its side |
| CheckPose.AnglePoints | src/check_pose.py:32-40 | succeeds exactly when `a`, `b` and a numeric `c` are valid numpy indices (negative ones count from the end), else IndexError; "Vertical" gives the vertex moved 100 units up the image |
| CheckPose.Lookup | src/check_pose.py:35-40 | numpy `keypoints[i]`: defined exactly for `-len <= i < len`, where it is the keypoint at `i` modulo the length; IndexError otherwise |
| CheckPose.PointPair | src/check_pose.py:46 | the two indexed keypoints, or IndexError exactly when one index is out of range |
| CheckPose.IssueParts | src/check_pose.py:43 | the f-string of `Issue` is the rule name, " incorrect (", the shown metric and ")", so name and metric can be read back |
| CheckPose.Judge | src/check_pose.py:42-43 | ValueError exactly when the threshold is unbounded; no issue exactly when the metric meets the threshold; otherwise the issue `"<name> incorrect (<shown>)"` |
| CheckPose.RuleStep | src/check_pose.py:31-72 | one loop pass as written: an angle rule raises IndexError when a keypoint does not resolve, ValueError when its threshold is unbounded, and otherwise is judged as above with its `:.1f` angle and " degrees"; a distance rule always raises UnboundLocalError; every other rule adds nothing |
| CheckPose.Verdict | src/check_pose.py:74 | "Correct" exactly when there are no issues, else "Incorrect: " followed by the issues joined with ", " |
| CheckPose.VerdictEnds | src/check_pose.py:74 | a verdict with issues begins with "Incorrect: " and the first issue and ends with the last issue |
| CheckPose.AsWrittenOutcome | src/check_pose.py:29-74 | `None` exactly when there are no rules; only an angle or distance first rule can raise; a distance first rule raises UnboundLocalError; any other first rule returns "Correct" |
| CheckPose.LaterRulesIgnored | src/check_pose.py:30-74 | the outcome depends on the first rule only |
| CheckPose.LoneAngleRule | src/check_pose.py:29-74 | for a single angle rule: ValueError when its threshold has no bound; otherwise "Correct" exactly when the angle meets the threshold, else "Incorrect: " and its one issue |
| CheckPose.PoseChecker.constructor | src/check_pose.py:9-12 | the checker holds the given rules |
| CheckPose.PoseChecker.CheckPose | src/check_pose.py:25-74 | the loop returns the outcome `AsWrittenOutcome` describes |
| CheckPose.IntendedStep | src/check_pose.py:45-72 | agrees with the as-written step on angle rules and unknown types; a distance, ratio or vector rule succeeds exactly when its keypoints resolve and its threshold is bounded |
| CheckPose.IntendedStepReports | src/check_pose.py:45-72 | a distance, ratio or vector rule raises IndexError when a keypoint does not resolve, else ValueError when its threshold is unbounded; otherwise it adds an issue exactly when its metric fails the threshold; the message shows the distance as `:.1f` with " units", the ratio as "ratio " with `:.2f`, and the vector angle as `:.1f` with " degrees" |
| CheckPose.Ratio | src/check_pose.py:59 | +infinity when the denominator is zero, the quotient otherwise |
| CheckPose.ZeroDenominatorViolates | src/check_pose.py:59-61 | a ratio rule whose second pair is zero apart is reported under any threshold with a maximum |
| CheckPose.AllIssuesFromRules | src/check_pose.py:29-72 | when every rule is evaluated, each issue collected is the message of one of the rules |
| CheckPose.AllIssuesOk | src/check_pose.py:29-72 | evaluating every rule raises nothing exactly when no rule raises |
| CheckPose.AllIssuesNone | src/check_pose.py:29-72 | without an exception, no issue is collected exactly when every rule passes |
| CheckPose.AllIssuesFirstError | src/check_pose.py:29-72 | the exception raised is that of the first rule that raises |
| CheckPose.AllIssuesSnoc | src/check_pose.py:30-72 | the intended accumulation over every rule (`AllIssues`): one more rule appends its issue or raises |
| CheckPose.AllIssuesRaisedPrefix | src/check_pose.py:30-72 | rules after one that raised do not matter |
| CheckPose.AgreeOnOneRule | src/check_pose.py:29-74 | with a single angle or unknown-type rule the code and the intended evaluator agree |
| CheckPose.AllRulesVerdict | src/check_pose.py:29-74 | the intended outcome (`AllRulesOutcome`: every rule, then the verdict) is never `None`; it is a verdict exactly when no rule raises, and "Correct" exactly when every rule passes |
| CheckPose.TwoViolations | src/check_pose.py:29-74 | intended: two violated rules give both messages in rule order |
| CheckPose.ReturnInsideLoopHidesLaterRules | src/check_pose.py:74 | as written, a passing first rule hides a violated second rule; the intended evaluator reports it |
| CheckPose.DistanceBranchRaises | src/check_pose.py:46 | as written, a well-formed distance rule raises UnboundLocalError; the intended evaluator returns a verdict |
| CheckPose.RatioBranchNeverRuns | src/check_pose.py:51-61 | as written, a violated ratio rule yields "Correct"; the intended evaluator yields a different verdict |
| CheckPose.PoseChecker.CheckPoseAllRules | src/check_pose.py:29-74 | the loop with the return after it evaluates every rule and returns the intended outcome |
| Text.Split | src/visualizer.py:33 | `split(" ")` yields at least one piece |
| Text.SplitSpaceFree | src/visualizer.py:33 | no piece of `split(" ")` holds a space |
| Text.JoinEnds | src/check_pose.py:74 | `sep.join` (the function `Join`) of no pieces is empty; otherwise it starts with the first piece and ends with the last |
| Text.JoinSplit | src/visualizer.py:33 | joining the pieces with single spaces gives the string back |
| Text.SplitJoin | src/visualizer.py:37 | a line joined from space-free words splits back into those words |
| Text.JoinConcat | src/check_pose.py:74 | joining two non-empty lists puts one separator between their joins |
| Visualizer.Trunc | src/visualizer.py:66 | `int()` truncates toward zero: the result is the integer part of a non-negative or a negative float |
| Visualizer.WrapStepShape | src/visualizer.py:37-46 | one pass of the loop body (`WrapStep`) leaves the word last on the open line; it either keeps the closed lines, or closes a non-empty open line on which the word did not fit and opens a new line with the word alone |
| Visualizer.Wrapped | src/visualizer.py:33-48 | the wrapped lines of a label are never empty |
| Visualizer.StepRebuilds | src/visualizer.py:36-46 | a loop pass keeps the closed lines and the open line rebuilding the words taken so far |
| Visualizer.StepFits | src/visualizer.py:36-46 | a loop pass keeps every line of two or more words within `max_width` |
| Visualizer.StepGreedy | src/visualizer.py:36-46 | a loop pass keeps each closed line followed by a word that did not fit on it |
| Visualizer.StepKeepsInvariant | src/visualizer.py:35-46 | each loop pass preserves the wrap invariant |
| Visualizer.WrapPrefixInvariant | src/visualizer.py:35-46 | the wrap invariant holds after every prefix of the words |
| Visualizer.WrappedLines | src/visualizer.py:33-51 | the lines are never empty, so the `continue` never runs; joined with spaces they give the label back; a line with a space fits `max_width` (a lone word may not); a line ends only where the next word would not fit |
| Visualizer.WrapLabel | src/visualizer.py:33-48 | the loop produces the lines `Wrapped` defines, which are non-empty and rebuild the label |
| Visualizer.BlockHeight | src/visualizer.py:57-61 | the block height is n text heights plus n-1 spacings, and the one-line case agrees with that formula |
| Visualizer.FirstBaseline | src/visualizer.py:63-68 | when head y − total height − 10 is not negative, the first baseline is that value truncated: never above row 0, and with head y within one pixel of baseline + total height + 10; otherwise it is int(head y + 10) |
| Visualizer.WidestLine | src/visualizer.py:71-76 | the maximum line width: no line is wider and some line attains it |
| Visualizer.ClampedLeft | src/visualizer.py:77-81 | the block's left edge is never negative and ends inside the frame whenever it fits; it is the truncated head x when that fits, flush with the right edge when the head is too far right and the block fits, and 0 when the head x is negative or the block is wider than the frame |
| Visualizer.LeftEdge | src/visualizer.py:77-81 | the reassignments of x compute `ClampedLeft` of the head's x |
| Visualizer.Baseline | src/visualizer.py:98-109 | line 0 sits on the first baseline, and line k at least k spacings below it |
| Visualizer.BaselineMonotone | src/visualizer.py:98-109 | later lines sit lower by at least the spacing per line |
| Visualizer.AboveHeadBox | src/visualizer.py:63-92 | above the head, the box's top is at most a text height plus padding above row 0, and negative exactly when the first baseline is nearer row 0 than that; the box ends at least 10 − padding above the head's y |
| Visualizer.Background | src/visualizer.py:83-92 | the box reaches `padding` beyond the block's left and right edges and every line's glyph band lies inside it |
| Visualizer.DrawLines | src/visualizer.py:97-109 | line k is drawn at x with baseline y_start + k·(text_height + spacing) |
| Visualizer.Labelled | src/visualizer.py:27-28 | exactly the people with keypoints and an index below the number of labels get a label, in increasing order |
| Visualizer.VerticalNote | src/visualizer.py:63-109 | the first baseline follows the head, consecutive baselines differ by text height plus spacing, and the box spans first to last line |
| Visualizer.PlacedNote | src/visualizer.py:29-109 | the values computed for one person make a placed annotation: the wrapped label, its left edge at the head's x clamped into the frame, its first baseline relative to the head's y, and the box around it |
| Visualizer.AnnotatedSkip | src/visualizer.py:27-28 | a person without keypoints or label adds nothing |
| Visualizer.AnnotatedAdd | src/visualizer.py:27-109 | a labelled person appends one placed annotation |
| Visualizer.PlaceLabel | src/visualizer.py:29-109 | one person's label is wrapped; its left edge is the head's x clamped into the frame, its first baseline is placed relative to the head's y, and it is drawn inside its box |
| Visualizer.AnnotateFrame | src/visualizer.py:10-111 | one annotation per labelled person, in order, each placed as above relative to that person's head |

## Left out

- **Configuration loading.** The JSON file at `src/check_pose.py:10-12` is not read; the constructor takes the parsed rules. Malformed entries are not modelled: a missing key, a wrong `keypoints` arity, or a `type` value that is not a string. Threshold bounds are taken to be finite numbers: `json.load` also accepts `Infinity`, `-Infinity` and `NaN`, and a `NaN` bound would make every value fail its comparison; that case is not modelled.
- **Numeric routines.** `calculate_angle`, `np.linalg.norm`, float division and the `:.1f`/`:.2f` formats are parameters (`Numerics`), as is float rounding (the keypoints are float32). Only the NaN and infinity cases the thresholds depend on are modelled.
- **calculate_vector_angle.** It is imported at `src/check_pose.py:5`, but `src/utils.py` does not define it, so the module would fail to import. The model takes it as the parameter `Numerics.vectorAngle`.
- **Float rounding of keypoint arithmetic.** Keypoints are taken as real pairs, so float32 rounding is not modelled. This covers `keypoints[b][1] - 100` for a "Vertical" third point, and the head arithmetic of `src/visualizer.py:65-68` and `src/visualizer.py:77` (`head_pos[1] - total_height - 10`, `head_pos[1] + 10` and the values `int()` truncates), which the model computes exactly on reals.
- **Drawing.** The vertex and edge annotators, the frame copy, `cv2.rectangle`, `cv2.putText`, colours, fonts and `show` are not modelled. The layout returns the rectangle corners and text origins that would be drawn.
- **Labels.** Labels are strings. `src/main.py` passes `None` when the rule list is empty, and line 33 would then fail; that path is not modelled. How `src/main.py` pairs labels with people is not part of this model, and neither is `src/model.py`.
- **Frame size.** The frame height is never used by the source, so it is not modelled.

## Findings

| source | as written | input that shows it | evidently intended | confidence | as-written member | corrected member |
|---|---|---|---|---|---|---|
| src/check_pose.py:74 | the `return` is inside the `for` loop, so only the first rule is ever evaluated and an empty rule list returns `None` | an angle rule that passes, followed by a distance rule that is violated: "Correct" | return after the loop, so every rule is evaluated and every violation is listed | high (not executed) | CheckPose.ReturnInsideLoopHidesLaterRules | CheckPose.PoseChecker.CheckPoseAllRules |
| src/check_pose.py:46 | the distance branch reads the locals `a`, `b` before anything in the call assigned them | a first rule of type "distance": UnboundLocalError | `a, b = rule["keypoints"]` first, then the keypoints at those indices | high (not executed) | CheckPose.DistanceBranchRaises | CheckPose.IntendedStep |
| src/check_pose.py:51, src/check_pose.py:63 | the whole rule dictionary is compared with the strings "distance_ratio" and "angle_between_vectors", so these branches never run | a ratio rule whose second pair of keypoints coincide, with a `max`: "Correct" | compare `rule["type"]`, so a zero denominator gives +infinity and a reported violation | high (not executed) | CheckPose.RatioBranchNeverRuns | CheckPose.ZeroDenominatorViolates |
