module StreamLines {
  import opened Base
  import opened Lists
  import opened Combinators
  import opened Streams
  import opened StreamOps

  /** The lines completed so far and the text after the last line feed. */
  datatype Split = Split(complete: seq<seq<Unit>>, tail: seq<Unit>)

  /** Reading one more code unit. */
  function Feed(st: Split, c: Unit): Split
  {
    if c == LF then Split(st.complete + [st.tail], []) else Split(st.complete, st.tail + [c])
  }

  predicate LineFree(s: seq<Unit>)
  {
    LF !in s
  }

  /** The lines of a text, each line feed closing one. */
  function LinesOf(text: seq<Unit>): Split
  {
    if text == [] then Split([], []) else Feed(LinesOf(text[..|text| - 1]), text[|text| - 1])
  }

  /** No line, and not the tail, holds a line feed. */
  lemma {:induction false} LinesAreLineFree(text: seq<Unit>)
    ensures LineFree(LinesOf(text).tail)
    ensures forall i :: 0 <= i < |LinesOf(text).complete| ==> LineFree(LinesOf(text).complete[i])
  {
    if text != [] {
      LinesAreLineFree(text[..|text| - 1]);
    }
  }

  /** Each line followed by a line feed. */
  function Unlines(lines: seq<seq<Unit>>): seq<Unit>
  {
    if lines == [] then [] else Unlines(lines[..|lines| - 1]) + lines[|lines| - 1] + [LF]
  }

  lemma {:induction false} LinesOfNoFeed(t: seq<Unit>, u: seq<Unit>)
    requires LineFree(u)
    ensures LinesOf(t + u) == Split(LinesOf(t).complete, LinesOf(t).tail + u)
    decreases |u|
  {
    if u == [] {
      assert t + u == t;
    } else {
      var u' := u[..|u| - 1];
      assert (t + u)[..|t + u| - 1] == t + u';
      LinesOfNoFeed(t, u');
      assert u == u' + [u[|u| - 1]];
    }
  }

  lemma LinesOfFeed(t: seq<Unit>, u: seq<Unit>)
    requires LineFree(u)
    ensures LinesOf(t + u + [LF]) == Split(LinesOf(t).complete + [LinesOf(t).tail + u], [])
  {
    assert (t + u + [LF])[..|t + u + [LF]| - 1] == t + u;
    LinesOfNoFeed(t, u);
  }

  /** Reading further text only adds lines. */
  lemma {:induction false} LinesOfPrefix(t: seq<Unit>, u: seq<Unit>)
    ensures LinesOf(t).complete <= LinesOf(t + u).complete
    decreases |u|
  {
    if u == [] {
      assert t + u == t;
    } else {
      var u' := u[..|u| - 1];
      assert (t + u)[..|t + u| - 1] == t + u';
      LinesOfPrefix(t, u');
    }
  }

  /** The lines, each followed by its line feed, and then the tail give back the text. */
  lemma {:induction false} LinesRoundTrip(text: seq<Unit>)
    ensures Unlines(LinesOf(text).complete) + LinesOf(text).tail == text
  {
    if text != [] {
      var t := text[..|text| - 1];
      var c := text[|text| - 1];
      LinesRoundTrip(t);
      assert text == t + [c];
      var st := LinesOf(t);
      var u := Unlines(st.complete);
      if c == LF {
        var cs := st.complete + [st.tail];
        assert LinesOf(text) == Split(cs, []);
        assert cs[..|cs| - 1] == st.complete && cs[|cs| - 1] == st.tail;
        assert Unlines(cs) == u + st.tail + [LF];
        assert Unlines(cs) + [] == Unlines(cs);
      } else {
        assert LinesOf(text) == Split(st.complete, st.tail + [c]);
        AppendAssoc(u, st.tail, [c]);
      }
    }
  }

  /** Splitting is the only way to write a text as line-feed-free lines, each
      closed by a line feed, followed by a line-feed-free tail. */
  lemma {:induction false} LinesUnique(lines: seq<seq<Unit>>, tail: seq<Unit>)
    requires forall i :: 0 <= i < |lines| ==> LineFree(lines[i])
    requires LineFree(tail)
    ensures LinesOf(Unlines(lines) + tail) == Split(lines, tail)
  {
    if lines == [] {
      assert Unlines(lines) + tail == [] + tail;
      LinesOfNoFeed([], tail);
    } else {
      var ls := lines[..|lines| - 1];
      var l := lines[|lines| - 1];
      LinesUnique(ls, []);
      assert Unlines(ls) + [] == Unlines(ls);
      LinesOfFeed(Unlines(ls), l);
      assert [] + l == l;
      assert LinesOf(Unlines(ls) + l + [LF]) == Split(ls + [l], []);
      assert Unlines(lines) == Unlines(ls) + l + [LF];
      assert Unlines(lines) + tail == (Unlines(ls) + l + [LF]) + tail;
      LinesOfNoFeed(Unlines(ls) + l + [LF], tail);
      assert ls + [l] == lines;
      assert [] + tail == tail;
    }
  }

  /** Text after the last line feed is never a line: "ab\ncd\n\nef" has the
      lines "ab", "cd" and "", and "ef" stays pending. */
  lemma LinesExample()
    ensures LinesOf([97, 98, 10, 99, 100, 10, 10, 101, 102]) == Split([[97, 98], [99, 100], []], [101, 102])
  {
    var lines: seq<seq<Unit>> := [[97, 98], [99, 100], []];
    assert Unlines(lines[..1]) == [97, 98, 10];
    assert Unlines(lines[..2]) == [97, 98, 10, 99, 100, 10];
    assert Unlines(lines) == [97, 98, 10, 99, 100, 10, 10];
    assert Unlines(lines) + [101, 102] == [97, 98, 10, 99, 100, 10, 10, 101, 102];
    LinesUnique(lines, [101, 102]);
  }

  /** One line of the callback: the buffered pieces and the piece before the
      line feed form the next line. */
  lemma LineStep(t: seq<Unit>, out: seq<seq<Unit>>, strings: seq<seq<Unit>>, piece: seq<Unit>)
    requires LinesOf(t) == Split(out, Concat(strings)) && LineFree(piece)
    ensures LinesOf(t + piece + [LF]) == Split(out + [Concat(strings + [piece])], [])
  {
    LinesOfFeed(t, piece);
    assert (strings + [piece])[..|strings|] == strings;
  }

  /** The last piece of a fragment goes to the buffer. */
  lemma TailStep(t: seq<Unit>, out: seq<seq<Unit>>, strings: seq<seq<Unit>>, piece: seq<Unit>)
    requires LinesOf(t) == Split(out, Concat(strings)) && LineFree(piece)
    ensures LinesOf(t + piece) == Split(out, Concat(strings + [piece]))
  {
    LinesOfNoFeed(t, piece);
    assert (strings + [piece])[..|strings|] == strings;
  }

  /** The text read up to and including the line feed at index j of s. */
  lemma FeedPosition(before: seq<Unit>, s: seq<Unit>, i: nat, j: nat)
    requires i <= j < |s| && s[j] == LF
    ensures before + s[..j + 1] == (before + s[..i]) + s[i..j] + [LF]
    ensures LinesOf(before + s[..j + 1]).complete <= LinesOf(before + s).complete
  {
    assert s[..j + 1] == s[..i] + s[i..j] + [LF];
    assert before + s == (before + s[..j + 1]) + s[j + 1..];
    LinesOfPrefix(before + s[..j + 1], s[j + 1..]);
  }

  lemma ConcatAround<T>(frags: seq<seq<T>>, i: nat)
    requires i < |frags|
    ensures Concat(frags[..i + 1]) == Concat(frags[..i]) + frags[i]
    ensures Concat(frags) == Concat(frags[..i + 1]) + Concat(frags[i + 1..])
  {
    assert frags[..i + 1][..i] == frags[..i];
    ConcatAt(frags, i + 1);
  }

  lemma LinesOfFragmentsPrefix(frags: seq<seq<Unit>>, i: nat, j: nat)
    requires i < |frags| && j <= |frags[i]|
    ensures LinesOf(Concat(frags[..i]) + frags[i][..j]).complete <= LinesOf(Concat(frags)).complete
    ensures LinesOf(Concat(frags[..i]) + frags[i][..j]).complete <= LinesOf(Concat(frags[..i + 1])).complete
  {
    ConcatAround(frags, i);
    var t := Concat(frags[..i]) + frags[i][..j];
    var u := frags[i][j..];
    var rest := Concat(frags[i + 1..]);
    assert frags[i] == frags[i][..j] + u;
    assert Concat(frags[..i + 1]) == t + u;
    LinesOfPrefix(t, u);
    AppendAssoc(t, u, rest);
    LinesOfPrefix(t, u + rest);
  }

  /** The callback proto_stream_lines.each hands its source
      (taak.js:917-940): the fragment s is split at its line feeds; the
      piece before a line feed is joined to the pieces buffered in strings to
      form a line, and the piece after the last line feed is buffered, even
      when it is empty. */
  method LinesCallback(s: seq<Unit>, ghost before: seq<Unit>, out0: seq<seq<Unit>>, strings0: seq<seq<Unit>>,
                       k: Consumer<seq<Unit>>)
    returns (out: seq<seq<Unit>>, strings: seq<seq<Unit>>, signal: Signal)
    requires LinesOf(before) == Split(out0, Concat(strings0))
    requires Continues(out0, k)
    ensures signal == Continue ==> LinesOf(before + s) == Split(out, Concat(strings)) && Continues(out, k)
    ensures signal == Stop ==>
      out != [] && out <= LinesOf(before + s).complete && Continues(out[..|out| - 1], k) && k(out) == Stop
    ensures signal == Stop ==> |out0| < |out|
  {
    out, strings := out0, strings0;
    var old_index := 0;
    assert before + s[..old_index] == before;
    while true
      invariant old_index <= |s|
      invariant LinesOf(before + s[..old_index]) == Split(out, Concat(strings))
      invariant Continues(out, k)
      invariant |out0| <= |out|
      decreases |s| - old_index
    {
      var new_index := IndexFrom(s, LF, old_index);
      if new_index == -1 {
        assert LineFree(s[old_index..]);
        assert before + s == (before + s[..old_index]) + s[old_index..];
        TailStep(before + s[..old_index], out, strings, s[old_index..]);
        strings := strings + [s[old_index..]];
        signal := Continue;
        return;
      }
      var piece := s[old_index..new_index];
      assert LineFree(piece);
      FeedPosition(before, s, old_index, new_index);
      LineStep(before + s[..old_index], out, strings, piece);
      ghost var next := LinesOf(before + s[..new_index + 1]).complete;
      ghost var joined := Concat(strings + [piece]);
      assert next == out + [joined];
      var line;
      if |strings| == 0 {
        line := piece;
        assert strings + [piece] == [piece];
        assert Concat([piece]) == Concat([piece][..0]) + piece;
      } else {
        strings := strings + [piece];
        line := Concat(strings);
        strings := [];
      }
      assert line == joined;
      assert out + [line] == next && next <= LinesOf(before + s).complete;
      old_index := new_index + 1;
      if k(out + [line]) == Stop {
        assert (out + [line])[..|out|] == out;
        out := out + [line];
        signal := Stop;
        return;
      }
      ContinuesStep(out, line, k);
      out := out + [line];
    }
  }

  /** proto_stream_lines.each (taak.js:915-941): the buffer strings
      lives across fragments and is never flushed, so text after the last
      line feed is not emitted. */
  method LinesEach(frags: seq<seq<Unit>>, k: Consumer<seq<Unit>>)
    returns (out: seq<seq<Unit>>, pulled: nat, strings: seq<seq<Unit>>)
    ensures out == Cut(LinesOf(Concat(frags)).complete, k)
    ensures pulled <= |frags|
    ensures !Stopped(out, k) ==> pulled == |frags| && Concat(strings) == LinesOf(Concat(frags)).tail
    ensures Stopped(out, k) ==> 0 < pulled && out <= LinesOf(Concat(frags[..pulled])).complete
    ensures Stopped(out, k) ==> |LinesOf(Concat(frags[..pulled - 1])).complete| < |out|
  {
    ghost var all := LinesOf(Concat(frags)).complete;
    out, pulled, strings := [], 0, [];
    while pulled < |frags|
      invariant pulled <= |frags|
      invariant LinesOf(Concat(frags[..pulled])) == Split(out, Concat(strings))
      invariant Continues(out, k)
    {
      var s := frags[pulled];
      ghost var before := Concat(frags[..pulled]);
      ConcatAround(frags, pulled);
      assert frags[pulled][..|s|] == s;
      LinesOfFragmentsPrefix(frags, pulled, |s|);
      var signal;
      assert LinesOf(before).complete == out;
      out, strings, signal := LinesCallback(s, before, out, strings, k);
      pulled := pulled + 1;
      if signal == Stop {
        CutStopLast(all, k, out);
        return;
      }
    }
    assert frags[..pulled] == frags;
    CutAll(all, k);
    if out != [] {
      assert out[..|out|] == out;
    }
  }
}
