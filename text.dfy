/** Python's `sep.join(xs)` and `s.split(" ")` on strings, with the facts
    that the label wrapping and the verdict string rely on. */
module Text {

  /** `sep.join(xs)`. */
  function Join(xs: seq<string>, sep: string): string
    decreases |xs|
  {
    if |xs| == 0 then ""
    else if |xs| == 1 then xs[0]
    else xs[0] + sep + Join(xs[1..], sep)
  }

  /** A join of no pieces is empty; otherwise it starts with the first piece
      and ends with the last. */
  lemma {:induction false} JoinEnds(xs: seq<string>, sep: string)
    ensures xs == [] ==> Join(xs, sep) == ""
    ensures xs != [] ==> xs[0] <= Join(xs, sep)
    ensures xs != [] ==> var r, last := Join(xs, sep), xs[|xs| - 1];
      |last| <= |r| && r[|r| - |last|..] == last
    decreases |xs|
  {
    if |xs| > 1 {
      JoinEnds(xs[1..], sep);
      var r, rest, last := Join(xs, sep), Join(xs[1..], sep), xs[|xs| - 1];
      assert xs[1..][|xs| - 2] == last;
      assert r == (xs[0] + sep) + rest;
      assert r[|r| - |last|..] == rest[|rest| - |last|..];
    }
  }

  /** No piece contains a space. */
  predicate SpaceFree(ws: seq<string>)
  {
    forall k :: 0 <= k < |ws| ==> ' ' !in ws[k]
  }

  /** `s.split(" ")`: cuts at every single space and keeps the empty pieces
      that neighbouring spaces (or a leading or trailing space) leave. */
  function Split(s: string): (words: seq<string>)
    ensures |words| >= 1
    decreases |s|
  {
    if s == [] then [""]
    else if s[0] == ' ' then [""] + Split(s[1..])
    else
      var rest := Split(s[1..]);
      [[s[0]] + rest[0]] + rest[1..]
  }

  /** No piece of `s.split(" ")` holds a space. */
  lemma {:induction false} SplitSpaceFree(s: string)
    ensures SpaceFree(Split(s))
    decreases |s|
  {
    if s != [] {
      SplitSpaceFree(s[1..]);
      if s[0] != ' ' {
        var rest := Split(s[1..]);
        assert ' ' !in rest[0];
        assert forall k :: 1 <= k < |rest| ==> ' ' !in rest[k];
      }
    }
  }

  /** Joining two non-empty lists puts one separator between their joins. */
  lemma {:induction false} JoinConcat(xs: seq<string>, ys: seq<string>, sep: string)
    requires xs != [] && ys != []
    ensures Join(xs + ys, sep) == Join(xs, sep) + sep + Join(ys, sep)
    decreases |xs|
  {
    if |xs| == 1 {
      assert (xs + ys)[1..] == ys;
    } else {
      assert (xs + ys)[1..] == xs[1..] + ys;
      JoinConcat(xs[1..], ys, sep);
    }
  }

  /** `" ".join(s.split(" ")) == s` for every string. */
  lemma {:induction false} JoinSplit(s: string)
    ensures Join(Split(s), " ") == s
    decreases |s|
  {
    if s == [] {
    } else if s[0] == ' ' {
      JoinSplit(s[1..]);
      var rest := Split(s[1..]);
      assert Split(s) == [""] + rest;
      assert ([""] + rest)[1..] == rest;
      assert s == " " + s[1..];
    } else {
      JoinSplit(s[1..]);
      var rest := Split(s[1..]);
      var first := [s[0]] + rest[0];
      assert Split(s) == [first] + rest[1..];
      if |rest| == 1 {
        assert Join([first] + rest[1..], " ") == first;
      } else {
        assert ([first] + rest[1..])[1..] == rest[1..];
        assert Join([first] + rest[1..], " ") == first + " " + Join(rest[1..], " ");
      }
      assert s == [s[0]] + s[1..];
    }
  }

  /** A space-free word followed by a space splits off as the first piece. */
  lemma {:induction false} SplitAfterWord(w: string, t: string)
    requires ' ' !in w
    ensures Split(w + " " + t) == [w] + Split(t)
    decreases |w|
  {
    var s := w + " " + t;
    if w == [] {
      assert s[0] == ' ' && s[1..] == t;
    } else {
      assert s[0] == w[0];
      assert s[1..] == w[1..] + " " + t;
      SplitAfterWord(w[1..], t);
      assert [w[0]] + w[1..] == w;
    }
  }

  /** A space-free string splits into itself alone. */
  lemma {:induction false} SplitWord(w: string)
    requires ' ' !in w
    ensures Split(w) == [w]
    decreases |w|
  {
    if w != [] {
      SplitWord(w[1..]);
      assert [w[0]] + w[1..] == w;
    }
  }

  /** `" ".join(ws).split(" ") == ws` when no word holds a space. */
  lemma {:induction false} SplitJoin(ws: seq<string>)
    requires ws != []
    requires SpaceFree(ws)
    ensures Split(Join(ws, " ")) == ws
    decreases |ws|
  {
    if |ws| == 1 {
      SplitWord(ws[0]);
    } else {
      assert ' ' !in ws[0];
      SplitJoin(ws[1..]);
      SplitAfterWord(ws[0], Join(ws[1..], " "));
      assert ws == [ws[0]] + ws[1..];
    }
  }
}
