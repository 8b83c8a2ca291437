/** The label layout of `Visualizer.annotate_frame` (src/visualizer.py):
    greedy word wrapping, block height, placement above or below the head,
    horizontal clamping, the background box and the line baselines. Text
    measurement (`cv2.getTextSize` with the method's fixed font, scale and
    thickness) is a parameter; what would be drawn is returned as values. */
module Visualizer {
  import opened Text
  import opened Geometry

  /** `max_width`: widest a wrapped line of two or more words may measure. */
  const MaxWidth: int := 300
  /** `spacing`: vertical gap between lines. */
  const Spacing: int := 5
  /** `padding`: margin of the background rectangle. */
  const Padding: int := 5
  /** The `10` of lines 65-68: above the head, it separates the head's y
      from `y_start + total_height`; below the head, the first baseline is
      the head's y plus this much. */
  const HeadGap: int := 10

  /** The size `cv2.getTextSize` reports for a string. */
  datatype Extent = Extent(width: nat, height: nat)

  /** A `cv2.rectangle` call's corners. */
  datatype Box = Box(left: int, top: int, right: int, bottom: int)

  /** A `cv2.putText` call: the text and its origin (left end of the baseline). */
  datatype Draw = Draw(text: string, x: int, y: int)

  /** The label drawn for one person. */
  datatype Annotation = Annotation(person: nat, lines: seq<string>, box: Box, draws: seq<Draw>)

  /** Python's `int()` on a float: truncation toward zero. */
  function Trunc(r: real): (n: int)
    ensures r >= 0.0 ==> 0 <= n && n as real <= r < n as real + 1.0
    ensures r < 0.0 ==> n <= 0 && n as real - 1.0 < r <= n as real
  {
    if r >= 0.0 then r.Floor else -((-r).Floor)
  }

  // ---------------------------------------------------------------------
  // Word wrapping

  /** The state of the loop of lines 36-46 between two words: the lines
      closed so far and the words of the open line (`current_line`). */
  datatype WrapState = WrapState(lines: seq<string>, current: seq<string>)

  /** One pass of the loop body for `word`: the word joins the open line
      when the extended line measures at most `MaxWidth`; otherwise the
      open line, if it has words, is closed and the word opens a new one. */
  function WrapStep(st: WrapState, word: string, measure: string -> Extent): WrapState
  {
    if measure(Join(st.current + [word], " ")).width <= MaxWidth then
      WrapState(st.lines, st.current + [word])
    else if st.current != [] then
      WrapState(st.lines + [Join(st.current, " ")], [word])
    else
      WrapState(st.lines, [word])
  }

  /** A step leaves the word last on the open line, and either keeps the
      closed lines or closes the open line, which has words, because the
      word did not fit on it, and opens a new line with the word alone. */
  lemma WrapStepShape(st: WrapState, word: string, measure: string -> Extent)
    ensures var next := WrapStep(st, word, measure);
      && next.current != [] && next.current[|next.current| - 1] == word
      && (next.lines == st.lines ||
          (st.current != [] && next.lines == st.lines + [Join(st.current, " ")] && next.current == [word]))
      && (next.lines != st.lines ==> measure(Join(st.current + [word], " ")).width > MaxWidth)
  {
  }

  /** The state once the loop has taken `words`, one at a time. */
  function WrapPrefix(words: seq<string>, measure: string -> Extent): WrapState
    decreases |words|
  {
    if words == [] then WrapState([], [])
    else WrapStep(WrapPrefix(words[..|words| - 1], measure), words[|words| - 1], measure)
  }

  /** Lines 33-48: the wrapped lines of a label, the open line closed after
      the loop when it has words. */
  function Wrapped(labelText: string, measure: string -> Extent): (lines: seq<string>)
    ensures lines != []
  {
    var st := WrapPrefix(Split(labelText), measure);
    if st.current != [] then st.lines + [Join(st.current, " ")] else st.lines
  }

  /** The closed lines and the open line together rebuild the words taken. */
  predicate Rebuilds(st: WrapState, words: seq<string>)
  {
    Join(st.lines + [Join(st.current, " ")], " ") == Join(words, " ")
  }

  /** A closed line with a space fits, and so does an open line of two or
      more words. */
  predicate Fits(st: WrapState, measure: string -> Extent)
  {
    && (|st.current| >= 2 ==> measure(Join(st.current, " ")).width <= MaxWidth)
    && (forall k :: 0 <= k < |st.lines| && ' ' in st.lines[k] ==> measure(st.lines[k]).width <= MaxWidth)
  }

  /** A line was closed only because the next line's first word did not fit
      on it. */
  predicate Greedy(st: WrapState, measure: string -> Extent)
  {
    && (forall k :: 0 <= k < |st.lines| - 1 ==>
          measure(st.lines[k] + " " + Split(st.lines[k + 1])[0]).width > MaxWidth)
    && (st.lines != [] && st.current != [] ==>
          measure(st.lines[|st.lines| - 1] + " " + st.current[0]).width > MaxWidth)
  }

  /** A line that is the join of one space-free word has no space. */
  lemma OneWordLine(ws: seq<string>)
    requires |ws| == 1 && SpaceFree(ws)
    ensures ' ' !in Join(ws, " ")
  {
    assert Join(ws, " ") == ws[0];
  }

  /** Appending to the last of several joined strings appends to the join. */
  lemma JoinExtendLast(xs: seq<string>, last: string, tail: string)
    ensures Join(xs + [last + tail], " ") == Join(xs + [last], " ") + tail
  {
    if xs == [] {
      assert [] + [last + tail] == [last + tail];
      assert [] + [last] == [last];
    } else {
      JoinConcat(xs, [last + tail], " ");
      JoinConcat(xs, [last], " ");
    }
  }

  /** A step keeps the words rebuilt. */
  lemma {:induction false} StepRebuilds(st: WrapState, words: seq<string>, word: string, measure: string -> Extent)
    requires Rebuilds(st, words)
    requires st.current == [] <==> words == []
    requires st.current == [] ==> st.lines == []
    ensures Rebuilds(WrapStep(st, word, measure), words + [word])
  {
    if words == [] {
      assert words + [word] == [word];
      assert WrapStep(st, word, measure).lines == [];
      assert [] + [Join([word], " ")] == [word];
    } else {
      JoinConcat(words, [word], " ");
      JoinConcat(st.current, [word], " ");
      assert Join([word], " ") == word;
      if measure(Join(st.current + [word], " ")).width <= MaxWidth {
        JoinExtendLast(st.lines, Join(st.current, " "), " " + word);
        assert Join(st.current + [word], " ") == Join(st.current, " ") + (" " + word);
      } else {
        JoinConcat(st.lines + [Join(st.current, " ")], [word], " ");
      }
    }
  }

  /** A step keeps the lines fitting. */
  lemma {:induction false} StepFits(st: WrapState, word: string, measure: string -> Extent)
    requires SpaceFree(st.current) && ' ' !in word
    requires Fits(st, measure)
    ensures SpaceFree(WrapStep(st, word, measure).current)
    ensures Fits(WrapStep(st, word, measure), measure)
  {
    var next := WrapStep(st, word, measure);
    if measure(Join(st.current + [word], " ")).width > MaxWidth && st.current != [] {
      if |st.current| == 1 {
        OneWordLine(st.current);
      }
      assert next.lines[|st.lines|] == Join(st.current, " ");
    }
  }

  /** Closing a line whose first word did not fit on the previous line
      keeps the closed lines greedy. */
  lemma GreedyAppend(lines: seq<string>, line: string, measure: string -> Extent)
    requires forall k :: 0 <= k < |lines| - 1 ==>
      measure(lines[k] + " " + Split(lines[k + 1])[0]).width > MaxWidth
    requires lines != [] ==> measure(lines[|lines| - 1] + " " + Split(line)[0]).width > MaxWidth
    ensures var lines' := lines + [line];
      forall k :: 0 <= k < |lines'| - 1 ==>
        measure(lines'[k] + " " + Split(lines'[k + 1])[0]).width > MaxWidth
  {
    var lines' := lines + [line];
    forall k | 0 <= k < |lines'| - 1
      ensures measure(lines'[k] + " " + Split(lines'[k + 1])[0]).width > MaxWidth
    {
      if k < |lines| - 1 {
        assert lines'[k] == lines[k] && lines'[k + 1] == lines[k + 1];
      } else {
        assert lines'[k] == lines[|lines| - 1] && lines'[k + 1] == line;
      }
    }
  }

  /** A step keeps the lines greedy. */
  lemma {:induction false} StepGreedy(st: WrapState, word: string, measure: string -> Extent)
    requires SpaceFree(st.current)
    requires st.current == [] ==> st.lines == []
    requires Greedy(st, measure)
    ensures Greedy(WrapStep(st, word, measure), measure)
  {
    if measure(Join(st.current + [word], " ")).width > MaxWidth && st.current != [] {
      var line := Join(st.current, " ");
      SplitJoin(st.current);
      GreedyAppend(st.lines, line, measure);
      JoinConcat(st.current, [word], " ");
      assert Join([word], " ") == word;
      var lines' := st.lines + [line];
      assert lines'[|lines'| - 1] == line;
    }
  }

  /** What holds of the loop's state after the words `words`: it rebuilds
      them, its open line is empty only before the first word, a line of
      two or more words fits, and lines are closed greedily. */
  predicate WrapInvariant(st: WrapState, words: seq<string>, measure: string -> Extent)
  {
    && Rebuilds(st, words)
    && (st.current == [] <==> words == [])
    && (st.current == [] ==> st.lines == [])
    && SpaceFree(st.current)
    && Fits(st, measure)
    && Greedy(st, measure)
  }

  /** Each pass of the loop body keeps the invariant. */
  lemma StepKeepsInvariant(st: WrapState, words: seq<string>, word: string, measure: string -> Extent)
    requires ' ' !in word
    requires WrapInvariant(st, words, measure)
    ensures WrapInvariant(WrapStep(st, word, measure), words + [word], measure)
  {
    StepRebuilds(st, words, word, measure);
    StepFits(st, word, measure);
    StepGreedy(st, word, measure);
  }

  /** The invariant holds after every prefix of the words. */
  lemma {:induction false} WrapPrefixInvariant(words: seq<string>, measure: string -> Extent)
    requires SpaceFree(words)
    ensures WrapInvariant(WrapPrefix(words, measure), words, measure)
    decreases |words|
  {
    if words != [] {
      var front, word := words[..|words| - 1], words[|words| - 1];
      assert SpaceFree(front) && ' ' !in word;
      assert front + [word] == words;
      assert WrapPrefix(words, measure) == WrapStep(WrapPrefix(front, measure), word, measure);
      WrapPrefixInvariant(front, measure);
      StepKeepsInvariant(WrapPrefix(front, measure), front, word, measure);
    }
  }

  /** What the wrapped lines promise: at least one line (so the `continue`
      of line 51 is never taken), the lines joined with single spaces give
      the label back, a line holding a space measures at most `MaxWidth`
      (a single word may be wider), and a line is followed by another only
      when its extension by the next line's first word would not fit. */
  lemma WrappedLines(labelText: string, measure: string -> Extent)
    ensures var lines := Wrapped(labelText, measure);
      && lines != []
      && Join(lines, " ") == labelText
      && (forall k :: 0 <= k < |lines| && ' ' in lines[k] ==> measure(lines[k]).width <= MaxWidth)
      && (forall k :: 0 <= k < |lines| - 1 ==>
            measure(lines[k] + " " + Split(lines[k + 1])[0]).width > MaxWidth)
  {
    var words := Split(labelText);
    var st := WrapPrefix(words, measure);
    SplitSpaceFree(labelText);
    WrapPrefixInvariant(words, measure);
    JoinSplit(labelText);
    // The final close is a step that always closes.
    var last := WrapState(st.lines + [Join(st.current, " ")], []);
    assert Wrapped(labelText, measure) == last.lines;
    if |st.current| == 1 {
      OneWordLine(st.current);
    }
    SplitJoin(st.current);
    var lines := last.lines;
    assert lines[|st.lines|] == Join(st.current, " ");
    assert forall k :: 0 <= k < |st.lines| ==> lines[k] == st.lines[k];
  }

  /** Lines 33-48 as the loop runs them. */
  method WrapLabel(labelText: string, measure: string -> Extent) returns (lines: seq<string>)
    ensures lines == Wrapped(labelText, measure)
    ensures lines != [] && Join(lines, " ") == labelText
  {
    var words := Split(labelText);
    lines := [];
    var current: seq<string> := [];
    for i := 0 to |words|
      invariant WrapState(lines, current) == WrapPrefix(words[..i], measure)
    {
      assert words[..i + 1][..i] == words[..i];
      var word := words[i];
      var testLine := Join(current + [word], " ");
      if measure(testLine).width <= MaxWidth {
        current := current + [word];
      } else {
        if current != [] {
          lines := lines + [Join(current, " ")];
        }
        current := [word];
      }
    }
    assert words[..|words|] == words;
    if current != [] {
      lines := lines + [Join(current, " ")];
    }
    WrappedLines(labelText, measure);
  }

  // ---------------------------------------------------------------------
  // Placement

  /** Lines 57-61: height of a block of `n` lines. The special case for one
      line agrees with the general formula. */
  function BlockHeight(n: nat, textHeight: nat): (h: int)
    requires n >= 1
    ensures h == n * textHeight + (n - 1) * Spacing
    ensures h >= textHeight
  {
    if n > 1 then n * textHeight + (n - 1) * Spacing else textHeight
  }

  /** Lines 65-68: baseline of the first line. When the head's y minus the
      block height minus 10 is not negative, it is that value truncated, so
      the baseline is never above row 0; the first line's glyphs and the box
      still reach up to a text height plus `Padding` above it. Otherwise it
      is the head's y plus 10, truncated, so the first baseline lies 10 below
      the head. */
  function FirstBaseline(headY: real, totalHeight: int): (y: int)
    ensures headY - totalHeight as real - HeadGap as real >= 0.0 ==>
      0 <= y && y as real + totalHeight as real + HeadGap as real <= headY &&
      headY < y as real + totalHeight as real + HeadGap as real + 1.0
    ensures headY - totalHeight as real - HeadGap as real < 0.0 ==>
      y == Trunc(headY + HeadGap as real)
  {
    if headY - totalHeight as real - HeadGap as real >= 0.0 then
      Trunc(headY - totalHeight as real - HeadGap as real)
    else
      Trunc(headY + HeadGap as real)
  }

  /** `max(...)` of line 71: the widest line's width. */
  function WidestLine(lines: seq<string>, measure: string -> Extent): (w: int)
    requires lines != []
    ensures forall k :: 0 <= k < |lines| ==> measure(lines[k]).width <= w
    ensures exists k :: 0 <= k < |lines| && measure(lines[k]).width == w
    decreases |lines|
  {
    if |lines| == 1 then measure(lines[0]).width
    else
      var first, rest := measure(lines[0]).width, WidestLine(lines[1..], measure);
      assert forall k :: 1 <= k < |lines| ==> lines[k] == lines[1..][k - 1];
      if first >= rest then first else rest
  }

  /** Where the block's left edge belongs: the truncated head x, but no
      further right than lets the widest line end at the frame's right
      edge, and never left of the frame. It is the head's x when that
      fits; flush with the right edge when the head is too far right and
      the block fits; 0 when the head is left of the frame or the block is
      wider than the frame. */
  function ClampedLeft(headX: real, widest: int, frameWidth: int): (x: int)
    ensures x >= 0
    ensures widest <= frameWidth ==> x + widest <= frameWidth
    ensures 0 <= Trunc(headX) && Trunc(headX) + widest <= frameWidth ==> x == Trunc(headX)
    ensures Trunc(headX) + widest > frameWidth && widest <= frameWidth ==> x == frameWidth - widest
    ensures Trunc(headX) < 0 ==> x == 0
    ensures widest > frameWidth ==> x == 0
  {
    var fitted := if Trunc(headX) <= frameWidth - widest then Trunc(headX) else frameWidth - widest;
    if fitted >= 0 then fitted else 0
  }

  /** Lines 77-81: the head's x, moved left so that the widest line ends
      at the right edge, then never left of the left edge. */
  method LeftEdge(headX: real, widest: int, frameWidth: int) returns (x: int)
    ensures x == ClampedLeft(headX, widest, frameWidth)
  {
    x := Trunc(headX);
    if x + widest > frameWidth {
      x := frameWidth - widest;
    }
    if x < 0 {
      x := 0;
    }
  }

  /** Baseline of line `k` of a block whose first baseline is `yStart`. */
  function Baseline(yStart: int, k: nat, textHeight: nat): (y: int)
    ensures k == 0 ==> y == yStart
    ensures y >= yStart + k * Spacing
  {
    yStart + k * (textHeight + Spacing)
  }

  /** Later lines sit lower. */
  lemma BaselineMonotone(yStart: int, j: nat, k: nat, textHeight: nat)
    requires j <= k
    ensures Baseline(yStart, j, textHeight) + (k - j) * Spacing <= Baseline(yStart, k, textHeight)
  {
    assert Baseline(yStart, k, textHeight) - Baseline(yStart, j, textHeight)
        == (k - j) * (textHeight + Spacing);
  }

  /** Lines 84-92: the background rectangle. It reaches `Padding` beyond the
      widest line on both sides, from `Padding` above the first line's
      glyphs to `Padding` below one text height under the last baseline,
      so every line's band from baseline minus text height to baseline is
      inside it. */
  function Background(x: int, yStart: int, n: nat, textHeight: nat, widest: int): (box: Box)
    requires n >= 1
    ensures box.left + Padding == x && box.right - Padding == x + widest
    ensures box.top + Padding == yStart - textHeight
    ensures box.bottom - Padding == Baseline(yStart, n - 1, textHeight) + textHeight
    ensures forall k: nat :: k < n ==>
      box.top + Padding <= Baseline(yStart, k, textHeight) - textHeight &&
      Baseline(yStart, k, textHeight) <= box.bottom - Padding
  {
    var box := Box(x - Padding, yStart - textHeight - Padding, x + widest + Padding,
                   yStart + (n - 1) * (textHeight + Spacing) + textHeight + Padding);
    forall k: nat | k < n
      ensures box.top + Padding <= Baseline(yStart, k, textHeight) - textHeight
      ensures Baseline(yStart, k, textHeight) <= box.bottom - Padding
    {
      BaselineMonotone(yStart, 0, k, textHeight);
      BaselineMonotone(yStart, k, n - 1, textHeight);
    }
    box
  }

  /** Above the head, the box's top lies at most a text height plus
      `Padding` above row 0 (above it whenever the first baseline is nearer
      row 0 than a text height plus `Padding`), and the box ends at least
      `HeadGap - Padding` above the head's y. */
  lemma AboveHeadBox(x: int, headY: real, n: nat, textHeight: nat, widest: int)
    requires n >= 1
    requires headY - BlockHeight(n, textHeight) as real - HeadGap as real >= 0.0
    ensures var y := FirstBaseline(headY, BlockHeight(n, textHeight));
      var box := Background(x, y, n, textHeight, widest);
      && box.top >= -(textHeight + Padding)
      && (y < textHeight + Padding <==> box.top < 0)
      && (box.bottom + HeadGap - Padding) as real <= headY
  {
    var y := FirstBaseline(headY, BlockHeight(n, textHeight));
    assert Baseline(y, n - 1, textHeight) + textHeight == y + BlockHeight(n, textHeight);
  }

  /** Lines 98-109: each line drawn at `x`, the baseline moving down by one
      text height plus `Spacing` per line. */
  method DrawLines(lines: seq<string>, x: int, yStart: int, textHeight: nat) returns (draws: seq<Draw>)
    ensures |draws| == |lines|
    ensures forall k :: 0 <= k < |lines| ==> draws[k] == Draw(lines[k], x, Baseline(yStart, k, textHeight))
  {
    draws := [];
    var y := yStart;
    for k := 0 to |lines|
      invariant |draws| == k
      invariant y == Baseline(yStart, k, textHeight)
      invariant forall j :: 0 <= j < k ==> draws[j] == Draw(lines[j], x, Baseline(yStart, j, textHeight))
    {
      draws := draws + [Draw(lines[k], x, y)];
      y := y + textHeight + Spacing;
    }
  }

  // ---------------------------------------------------------------------
  // The frame

  /** The people that get a label: non-empty keypoints and an index below
      the number of labels (line 28), in order. */
  function Labelled(people: seq<seq<Point>>, labels: seq<string>, n: nat): (idx: seq<nat>)
    requires n <= |people|
    ensures forall j :: 0 <= j < |idx| ==> idx[j] < n && people[idx[j]] != [] && idx[j] < |labels|
    ensures forall i :: 0 <= i < n && people[i] != [] && i < |labels| ==> i in idx
    ensures forall j, j' :: 0 <= j < j' < |idx| ==> idx[j] < idx[j']
    decreases n
  {
    if n == 0 then []
    else
      var before := Labelled(people, labels, n - 1);
      if people[n - 1] != [] && n - 1 < |labels| then before + [n - 1] else before
  }

  /** Every line is drawn, in order, `Padding` inside the box's left side. */
  predicate LinesDrawn(note: Annotation)
  {
    && |note.draws| == |note.lines|
    && forall k :: 0 <= k < |note.draws| ==>
         note.draws[k].text == note.lines[k] && note.draws[k].x == note.box.left + Padding
  }

  /** The block starts at the head's x clamped into the frame, so inside
      the frame on the left and, whenever the widest line fits, on the
      right; the box reaches `Padding` beyond the widest line. */
  predicate Horizontal(note: Annotation, headX: real, frameWidth: int, measure: string -> Extent)
    requires note.lines != []
  {
    && note.box.left + Padding == ClampedLeft(headX, WidestLine(note.lines, measure), frameWidth)
    && note.box.left + Padding >= 0
    && (WidestLine(note.lines, measure) <= frameWidth ==> note.box.right - Padding <= frameWidth)
    && note.box.right - Padding == note.box.left + Padding + WidestLine(note.lines, measure)
  }

  /** The first baseline is placed relative to the head, each later one is
      one text height plus `Spacing` lower, and the box runs from `Padding`
      above the first line's glyphs to `Padding` below one text height
      under the last baseline. */
  predicate Vertical(note: Annotation, headY: real, textHeight: nat)
    requires note.lines != [] && |note.draws| == |note.lines|
  {
    && note.draws[0].y == FirstBaseline(headY, BlockHeight(|note.lines|, textHeight))
    && (forall k :: 0 <= k < |note.draws| - 1 ==>
          note.draws[k + 1].y == note.draws[k].y + textHeight + Spacing)
    && note.box.top == note.draws[0].y - textHeight - Padding
    && note.box.bottom == note.draws[|note.draws| - 1].y + textHeight + Padding
  }

  /** One person's label as laid out by the loop body of lines 29-109: the
      wrapped label, which rebuilds the label, drawn and boxed as above. */
  ghost predicate Placed(note: Annotation, people: seq<seq<Point>>, labels: seq<string>,
                         frameWidth: int, measure: string -> Extent)
  {
    && note.person < |labels|
    && note.person < |people| && people[note.person] != []
    && note.lines == Wrapped(labels[note.person], measure)
    && note.lines != []
    && Join(note.lines, " ") == labels[note.person]
    && LinesDrawn(note)
    && Horizontal(note, people[note.person][0].x, frameWidth, measure)
    && Vertical(note, people[note.person][0].y, measure("A").height)
  }

  /** The drawn lines and the background box laid out from the same first
      baseline are vertically placed. */
  lemma VerticalNote(note: Annotation, headY: real, textHeight: nat, x: int, yStart: int, widest: int)
    requires note.lines != []
    requires yStart == FirstBaseline(headY, BlockHeight(|note.lines|, textHeight))
    requires note.box == Background(x, yStart, |note.lines|, textHeight, widest)
    requires |note.draws| == |note.lines|
    requires forall k :: 0 <= k < |note.lines| ==>
      note.draws[k] == Draw(note.lines[k], x, Baseline(yStart, k, textHeight))
    ensures Vertical(note, headY, textHeight)
  {
    forall k | 0 <= k < |note.draws| - 1
      ensures note.draws[k + 1].y == note.draws[k].y + textHeight + Spacing
    {
      assert Baseline(yStart, k + 1, textHeight) == Baseline(yStart, k, textHeight) + textHeight + Spacing;
    }
  }

  /** The pieces computed for one person make a `Placed` annotation. */
  lemma PlacedNote(note: Annotation, people: seq<seq<Point>>, labels: seq<string>,
                   frameWidth: int, measure: string -> Extent, x: int, yStart: int, widest: int)
    requires note.person < |labels| && note.person < |people| && people[note.person] != []
    requires note.lines == Wrapped(labels[note.person], measure)
    requires note.lines != [] && Join(note.lines, " ") == labels[note.person]
    requires widest == WidestLine(note.lines, measure)
    requires x == ClampedLeft(people[note.person][0].x, widest, frameWidth)
    requires yStart == FirstBaseline(people[note.person][0].y,
                                     BlockHeight(|note.lines|, measure("A").height))
    requires note.box == Background(x, yStart, |note.lines|, measure("A").height, widest)
    requires |note.draws| == |note.lines|
    requires forall k :: 0 <= k < |note.lines| ==>
      note.draws[k] == Draw(note.lines[k], x, Baseline(yStart, k, measure("A").height))
    ensures Placed(note, people, labels, frameWidth, measure)
  {
    VerticalNote(note, people[note.person][0].y, measure("A").height, x, yStart, widest);
  }

  /** The loop's invariant over the people seen so far. */
  ghost predicate Annotated(notes: seq<Annotation>, people: seq<seq<Point>>, labels: seq<string>, i: nat,
                            frameWidth: int, measure: string -> Extent)
    requires i <= |people|
  {
    && |notes| == |Labelled(people, labels, i)|
    && (forall j :: 0 <= j < |notes| ==> notes[j].person == Labelled(people, labels, i)[j])
    && (forall j :: 0 <= j < |notes| ==> Placed(notes[j], people, labels, frameWidth, measure))
  }

  /** Person `i` gets no label: nothing is added. */
  lemma AnnotatedSkip(notes: seq<Annotation>, people: seq<seq<Point>>, labels: seq<string>, i: nat,
                      frameWidth: int, measure: string -> Extent)
    requires i < |people| && !(people[i] != [] && i < |labels|)
    requires Annotated(notes, people, labels, i, frameWidth, measure)
    ensures Annotated(notes, people, labels, i + 1, frameWidth, measure)
  {
  }

  /** Person `i` gets a label: its annotation is appended. */
  lemma AnnotatedAdd(notes: seq<Annotation>, note: Annotation, people: seq<seq<Point>>, labels: seq<string>,
                     i: nat, frameWidth: int, measure: string -> Extent)
    requires i < |people| && people[i] != [] && i < |labels|
    requires Annotated(notes, people, labels, i, frameWidth, measure)
    requires note.person == i && Placed(note, people, labels, frameWidth, measure)
    ensures Annotated(notes + [note], people, labels, i + 1, frameWidth, measure)
  {
    var notes' := notes + [note];
    assert Labelled(people, labels, i + 1) == Labelled(people, labels, i) + [i];
    forall j | 0 <= j < |notes'|
      ensures Placed(notes'[j], people, labels, frameWidth, measure)
    {
      if j < |notes| {
        assert notes'[j] == notes[j];
      }
    }
  }

  /** The body of the loop of lines 27-109 for a person `i` with keypoints
      and a label: wrap, measure, place and draw. */
  method PlaceLabel(i: nat, people: seq<seq<Point>>, labels: seq<string>, frameWidth: int,
                    measure: string -> Extent) returns (note: Annotation)
    requires i < |people| && people[i] != [] && i < |labels|
    ensures note.person == i && Placed(note, people, labels, frameWidth, measure)
  {
    var head := people[i][0];
    var lines := WrapLabel(labels[i], measure);
    var textHeight := measure("A").height;
    var totalHeight := BlockHeight(|lines|, textHeight);
    var yStart := FirstBaseline(head.y, totalHeight);
    var widest := WidestLine(lines, measure);
    var x := LeftEdge(head.x, widest, frameWidth);
    var box := Background(x, yStart, |lines|, textHeight, widest);
    var draws := DrawLines(lines, x, yStart, textHeight);
    note := Annotation(i, lines, box, draws);
    PlacedNote(note, people, labels, frameWidth, measure, x, yStart, widest);
  }

  /** The layout part of `annotate_frame`: one annotation per labelled
      person, in order, for the keypoint sets `people` (head at index 0)
      and a frame `frameWidth` wide. */
  method AnnotateFrame(people: seq<seq<Point>>, labels: seq<string>, frameWidth: int, measure: string -> Extent)
    returns (notes: seq<Annotation>)
    ensures |notes| == |Labelled(people, labels, |people|)|
    ensures forall j :: 0 <= j < |notes| ==> notes[j].person == Labelled(people, labels, |people|)[j]
    ensures forall j :: 0 <= j < |notes| ==> Placed(notes[j], people, labels, frameWidth, measure)
  {
    notes := [];
    for i := 0 to |people|
      invariant Annotated(notes, people, labels, i, frameWidth, measure)
    {
      var kp := people[i];
      if |kp| > 0 && i < |labels| {
        var note := PlaceLabel(i, people, labels, frameWidth, measure);
        AnnotatedAdd(notes, note, people, labels, i, frameWidth, measure);
        notes := notes + [note];
      } else {
        AnnotatedSkip(notes, people, labels, i, frameWidth, measure);
      }
    }
  }
}
