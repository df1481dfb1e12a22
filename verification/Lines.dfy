/**
 What the lines of a stream are, independently of how the stream is cut into chunks.
 Both stream readers of the program (NDJSON frames, server-sent events) are proved against it.
 */
module Lines {
  import opened Sequences

  datatype Cut<T> = Cut(lines: seq<seq<T>>, rest: seq<T>)

  /** The complete lines of `t`, the first of which continues `line`, and the unfinished last one. */
  function CutLines<T(==)>(sep: T, line: seq<T>, t: seq<T>): Cut<T>
    decreases |t|
  {
    if t == [] then Cut([], line)
    else if t[0] == sep then
      var c := CutLines(sep, [], t[1..]);
      Cut([line] + c.lines, c.rest)
    else CutLines(sep, line + [t[0]], t[1..])
  }

  /** Cutting is independent of chunking: cut one chunk, then go on from where it ended. */
  lemma {:induction false} CutAppend<T>(sep: T, line: seq<T>, a: seq<T>, b: seq<T>)
    ensures var ca := CutLines(sep, line, a);
            CutLines(sep, line, a + b)
            == Cut(ca.lines + CutLines(sep, ca.rest, b).lines, CutLines(sep, ca.rest, b).rest)
    decreases |a|
  {
    if a == [] {
      assert a + b == b;
      assert CutLines(sep, line, a).lines + CutLines(sep, line, b).lines == CutLines(sep, line, b).lines;
    } else {
      assert (a + b)[1..] == a[1..] + b;
      if a[0] == sep {
        CutAppend(sep, [], a[1..], b);
        var c := CutLines(sep, [], a[1..]);
        assert ([line] + c.lines) + CutLines(sep, c.rest, b).lines == [line] + (c.lines + CutLines(sep, c.rest, b).lines);
      } else {
        CutAppend(sep, line + [a[0]], a[1..], b);
      }
    }
  }

  /** A piece without separator only lengthens the unfinished line. */
  lemma {:induction false} CutPlain<T>(sep: T, line: seq<T>, t: seq<T>)
    requires sep !in t
    ensures CutLines(sep, line, t) == Cut([], line + t)
    decreases |t|
  {
    if t == [] {
      assert line + t == line;
    } else {
      CutPlain(sep, line + [t[0]], t[1..]);
      assert (line + [t[0]]) + t[1..] == line + t;
    }
  }

  /** A separator-free piece followed by the separator completes exactly one line. */
  lemma CutOneLine<T>(sep: T, line: seq<T>, t: seq<T>, more: seq<T>)
    requires sep !in t
    ensures var c := CutLines(sep, [], more);
            CutLines(sep, line, t + [sep] + more) == Cut([line + t] + c.lines, c.rest)
  {
    CutPlain(sep, line, t);
    CutAppend(sep, line, t, [sep] + more);
    assert t + [sep] + more == t + ([sep] + more);
    assert ([sep] + more)[1..] == more;
    assert [] + CutLines(sep, line + t, [sep] + more).lines == CutLines(sep, line + t, [sep] + more).lines;
  }

  /** What is being collected stays the beginning of the line it ends up in. */
  lemma {:induction false} CutKeepsPrefix<T>(sep: T, line: seq<T>, t: seq<T>)
    ensures var c := CutLines(sep, line, t);
            line <= (c.lines + [c.rest])[0]
    decreases |t|
  {
    if t != [] && t[0] != sep {
      CutKeepsPrefix(sep, line + [t[0]], t[1..]);
    }
  }

  lemma {:induction false} CutSeparatorFree<T>(sep: T, line: seq<T>, t: seq<T>)
    requires sep !in line
    ensures sep !in CutLines(sep, line, t).rest
    ensures forall l | l in CutLines(sep, line, t).lines :: sep !in l
    decreases |t|
  {
    if t != [] {
      CutSeparatorFree(sep, if t[0] == sep then [] else line + [t[0]], t[1..]);
    }
  }

  /** The lines written one after the other, each ended by the separator. */
  function Terminated<T>(sep: T, lines: seq<seq<T>>): seq<T> {
    if lines == [] then [] else lines[0] + [sep] + Terminated(sep, lines[1..])
  }

  /** Reading back: nothing of the stream is lost or moved by cutting it. */
  lemma {:induction false} CutIsLossless<T>(sep: T, line: seq<T>, t: seq<T>)
    ensures var c := CutLines(sep, line, t);
            Terminated(sep, c.lines) + c.rest == line + t
    decreases |t|
  {
    if t == [] {
      assert line + t == line && Terminated(sep, []) + line == line;
    } else if t[0] == sep {
      CutIsLossless(sep, [], t[1..]);
      var c := CutLines(sep, [], t[1..]);
      assert ([line] + c.lines)[1..] == c.lines;
      assert line + [sep] + Terminated(sep, c.lines) + c.rest == line + [sep] + ([] + t[1..]);
      assert line + [sep] + t[1..] == line + t;
    } else {
      CutIsLossless(sep, line + [t[0]], t[1..]);
      assert (line + [t[0]]) + t[1..] == line + t;
    }
  }

  /** Writing then cutting gives the lines back. */
  lemma {:induction false} CutTerminated<T>(sep: T, lines: seq<seq<T>>)
    requires forall l | l in lines :: sep !in l
    ensures CutLines(sep, [], Terminated(sep, lines)) == Cut(lines, [])
  {
    if lines != [] {
      CutTerminated(sep, lines[1..]);
      CutOneLine(sep, [], lines[0], Terminated(sep, lines[1..]));
      assert [] + lines[0] == lines[0];
      assert [lines[0]] + lines[1..] == lines;
    }
  }

  /** The line without one final `end`, the carriage return that a line end may have. */
  function StripEnd<T(==)>(end: T, line: seq<T>): seq<T> {
    if line != [] && line[|line| - 1] == end then line[..|line| - 1] else line
  }

  /** Index of the first separator, -1 when there is none: `indexOf`. */
  function IndexOf<T(==)>(sep: T, t: seq<T>): (i: int)
    ensures -1 <= i < |t|
    ensures i < 0 ==> sep !in t
    ensures i >= 0 ==> t[i] == sep && sep !in t[..i]
  {
    if t == [] then -1
    else if t[0] == sep then 0
    else
      var j := IndexOf(sep, t[1..]);
      assert t == [t[0]] + t[1..];
      assert j >= 0 ==> t[..j + 1] == [t[0]] + t[1..][..j];
      if j < 0 then -1 else j + 1
  }
}
