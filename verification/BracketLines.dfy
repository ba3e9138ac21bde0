/** The bracket matchers as loops over lines (build-support/cpplint.py:1744-1978). */
module BracketLines {
  import opened Options
  import opened Brackets

  predicate NoAngles(line: string) { forall i :: 0 <= i < |line| ==> line[i] != '<' && line[i] != '>' }

  predicate Plain(lines: seq<string>) { forall i :: 0 <= i < |lines| ==> NoAngles(lines[i]) }

  function Flat(lines: seq<string>): string {
    if |lines| == 0 then "" else lines[0] + Flat(lines[1..])
  }

  /** Where line l starts in the flattened text. */
  function Offset(lines: seq<string>, l: nat): nat
    requires l <= |lines|
  {
    if l == 0 then 0 else Offset(lines, l - 1) + |lines[l - 1]|
  }

  lemma {:induction false} OffsetTail(lines: seq<string>, l: nat)
    requires 0 < l <= |lines|
    ensures Offset(lines, l) == |lines[0]| + Offset(lines[1..], l - 1)
  {
    if l > 1 {
      OffsetTail(lines, l - 1);
    }
  }

  /** Line l stands in the flattened text between its offset and the next one. */
  lemma {:induction false} LineInFlat(lines: seq<string>, l: nat)
    requires l < |lines|
    ensures Offset(lines, l) + |lines[l]| == Offset(lines, l + 1) <= |Flat(lines)|
    ensures Flat(lines)[Offset(lines, l)..Offset(lines, l + 1)] == lines[l]
    decreases l
  {
    var t := Flat(lines);
    assert t == lines[0] + Flat(lines[1..]);
    if l > 0 {
      LineInFlat(lines[1..], l - 1);
      OffsetTail(lines, l);
      OffsetTail(lines, l + 1);
      var o := Offset(lines[1..], l - 1);
      assert t[|lines[0]| + o..|lines[0]| + o + |lines[l]|] == Flat(lines[1..])[o..o + |lines[l]|];
    }
  }

  lemma {:induction false} OffsetEnd(lines: seq<string>)
    ensures Offset(lines, |lines|) == |Flat(lines)|
  {
    if |lines| > 0 {
      OffsetEnd(lines[1..]);
      OffsetTail(lines, |lines|);
    }
  }

  lemma {:induction false} OffsetGrows(lines: seq<string>, k: nat, l: nat)
    requires k <= l <= |lines|
    ensures Offset(lines, k) <= Offset(lines, l)
    decreases l
  {
    if k < l {
      OffsetGrows(lines, k, l - 1);
    }
  }

  /** A character has one line and one column. */
  lemma PlaceUnique(lines: seq<string>, k: nat, p: nat, l: nat, q: nat)
    requires k < |lines| && p < |lines[k]| && l < |lines| && q < |lines[l]|
    requires Offset(lines, k) + p == Offset(lines, l) + q
    ensures k == l && p == q
  {
    LineInFlat(lines, k);
    LineInFlat(lines, l);
    if k < l {
      OffsetGrows(lines, k + 1, l);
    } else if l < k {
      OffsetGrows(lines, l + 1, k);
    }
  }

  lemma CharAt(lines: seq<string>, l: nat, p: nat)
    requires l < |lines| && p < |lines[l]|
    ensures Offset(lines, l) + p < |Flat(lines)| && Flat(lines)[Offset(lines, l) + p] == lines[l][p]
  {
    LineInFlat(lines, l);
    assert lines[l][p] == Flat(lines)[Offset(lines, l)..Offset(lines, l + 1)][p];
  }

  /** The parts of a line before and after a column, in the flattened text. */
  lemma PartOfLine(lines: seq<string>, l: nat, p: nat)
    requires l < |lines| && p < |lines[l]|
    ensures Offset(lines, l) + p < Offset(lines, l + 1) <= |Flat(lines)|
    ensures Flat(lines)[Offset(lines, l) + p..Offset(lines, l + 1)] == lines[l][p..]
    ensures Flat(lines)[Offset(lines, l)..Offset(lines, l) + p + 1] == lines[l][..p + 1]
  {
    hide Flat;
    LineInFlat(lines, l);
    Slices(Flat(lines), Offset(lines, l), lines[l], p);
  }

  lemma Slices(t: string, o: nat, line: string, p: nat)
    requires o + |line| <= |t| && t[o..o + |line|] == line && p < |line|
    ensures t[o + p..o + |line|] == line[p..] && t[o..o + p + 1] == line[..p + 1]
  {
    assert t[o..o + |line|][p..] == t[o + p..o + |line|];
    assert t[o..o + |line|][..p + 1] == t[o..o + p + 1];
  }

  // ---------- Forward ----------

  /** The result of searching one line: a position, or -1 with the brackets still open, or -1 alone. */
  predicate Reports(r: Scan, pos: int, rest: Option<string>) {
    match r
    case Found(at) => pos == at && rest.None?
    case Mismatch => pos == -1 && rest.None?
    case Open(stack) => pos == -1 && rest == Some(stack)
  }

  method FindEndOfExpressionInLine(line: string, startpos: nat, given: string) returns (end: int, rest: Option<string>)
    requires startpos <= |line| && NoAngles(line)
    ensures Reports(Forward(given, line[startpos..]).Shift(startpos), end, rest)
  {
    var stack := given;
    for i := startpos to |line|
      invariant Forward(given, line[startpos..]).Shift(startpos) == Forward(stack, line[i..]).Shift(i)
    {
      var c := line[i];
      assert line[i..][0] == c && line[i..][1..] == line[i + 1..];
      if c == '(' || c == '[' || c == '{' {
        stack := stack + [c];
      } else if c == ')' || c == ']' || c == '}' {
        if |stack| == 0 {
          return -1, None;
        }
        var top := stack[|stack| - 1];
        if (top == '(' && c == ')') || (top == '[' && c == ']') || (top == '{' && c == '}') {
          stack := stack[..|stack| - 1];
          if |stack| == 0 {
            return i + 1, None;
          }
        } else {
          return -1, None;
        }
      } else if c == ';' {
        if |stack| == 0 {
          return -1, None;
        }
      }
    }
    return -1, Some(stack);
  }

  lemma {:induction false} StaysOpen(stack: string, s: string)
    requires |stack| > 0 && Forward(stack, s).Open?
    ensures |Forward(stack, s).stack| > 0
    decreases |s|
  {
    if |s| > 0 {
      if IsOpen(s[0]) {
        StaysOpen(stack + [s[0]], s[1..]);
      } else if IsClose(s[0]) {
        StaysOpen(stack[..|stack| - 1], s[1..]);
      } else {
        StaysOpen(stack, s[1..]);
      }
    }
  }

  ghost predicate HasClose(t: string, i: nat) { exists j: nat :: Matches(t, i, j) }

  ghost predicate HasOpen(t: string, j: nat) { exists i: nat :: Matches(t, i, j) }

  /** Scanning a text from position i to the end splits at any position k. */
  lemma ForwardFrom(stack: string, t: string, i: nat, k: nat)
    requires i <= k <= |t|
    ensures Forward(stack, t[i..]).Shift(i)
            == match Forward(stack, t[i..k]) case Open(st) => Forward(st, t[k..]).Shift(k) case r => r.Shift(i)
  {
    assert t[i..] == t[i..k] + t[k..];
    ForwardAppend(stack, t[i..k], t[k..]);
  }

  /** Finds the place just behind the bracket that closes the one at the given place, and gives up
      exactly when there is none. */
  method CloseExpression(lines: seq<string>, linenum: nat, pos: nat) returns (endLine: nat, end: int)
    requires Plain(lines) && linenum < |lines| && pos < |lines[linenum]|
    ensures end > -1 ==> endLine < |lines| && 0 < end <= |lines[endLine]|
                         && Matches(Flat(lines), Offset(lines, linenum) + pos, Offset(lines, endLine) + end - 1)
    ensures end <= -1 ==> endLine == |lines| && end == -1
                          && !HasClose(Flat(lines), Offset(lines, linenum) + pos)
  {
    hide Forward, Flat, Offset, Paired;
    ghost var t, i := Flat(lines), Offset(lines, linenum) + pos;
    CharAt(lines, linenum, pos);
    var line := lines[linenum];
    if line[pos] != '(' && line[pos] != '{' && line[pos] != '[' {
      return |lines|, -1;
    }
    LineInFlat(lines, linenum);
    ghost var k := Offset(lines, linenum + 1);
    PartOfLine(lines, linenum, pos);
    ForwardFrom("", t, i, k);
    FirstOpens(line[pos..]);
    var rest;
    end, rest := FindEndOfExpressionInLine(line, pos, "");
    FoundInside("", line[pos..]);
    if end > -1 {
      FoundHere(lines, linenum, pos, linenum, end);
      return linenum, end;
    }
    var l := linenum;
    while rest.Some? && |rest.value| > 0 && l < |lines| - 1
      invariant linenum <= l < |lines| && end == -1 && Offset(lines, l + 1) <= |t|
      invariant rest.Some? ==> |rest.value| > 0
      invariant rest.Some? ==> Forward("", t[i..]).Shift(i) == Forward(rest.value, t[Offset(lines, l + 1)..]).Shift(Offset(lines, l + 1))
      invariant rest.None? ==> Forward("", t[i..]).Shift(i) == Mismatch
      decreases |lines| - l
    {
      l := l + 1;
      line := lines[l];
      LineInFlat(lines, l);
      assert line[0..] == line;
      ForwardFrom(rest.value, t, Offset(lines, l), Offset(lines, l + 1));
      var before := rest.value;
      end, rest := FindEndOfExpressionInLine(line, 0, before);
      FoundInside(before, line);
      if end > -1 {
        FoundHere(lines, linenum, pos, l, end);
        return l, end;
      }
      if rest.Some? { StaysOpen(before, line); }
    }
    if rest.Some? {
      OffsetEnd(lines);
      assert t[|t|..] == "";
      NothingLeft(rest.value);
    }
    forall j: nat ensures !Matches(t, i, j) {
      if j >= i { ForwardExact(t, i, j); }
    }
    return |lines|, -1;
  }

  lemma NothingLeft(stack: string)
    ensures Forward(stack, "") == Open(stack)
  {
  }

  lemma FirstOpens(s: string)
    requires |s| > 0 && IsOpen(s[0])
    ensures Forward("", s).Open? ==> |Forward("", s).stack| > 0
  {
    assert "" + [s[0]] == [s[0]];
    if Forward([s[0]], s[1..]).Open? {
      StaysOpen([s[0]], s[1..]);
    }
  }

  lemma FoundHere(lines: seq<string>, linenum: nat, pos: nat, l: nat, end: nat)
    requires linenum < |lines| && pos < |lines[linenum]| && IsOpen(lines[linenum][pos])
    requires l < |lines| && end <= |lines[l]|
    requires var i := Offset(lines, linenum) + pos;
             i <= |Flat(lines)| && Forward("", Flat(lines)[i..]).Shift(i) == Found(Offset(lines, l) + end)
    ensures end > 0 ==> Matches(Flat(lines), Offset(lines, linenum) + pos, Offset(lines, l) + end - 1)
  {
    hide Forward, Flat, Offset;
    var t, i := Flat(lines), Offset(lines, linenum) + pos;
    CharAt(lines, linenum, pos);
    FoundInside("", t[i..]);
    if end > 0 {
      ForwardExact(t, i, Offset(lines, l) + end - 1);
    }
  }

  // ---------- Backward ----------

  method FindStartOfExpressionInLine(line: string, endpos: int, given: string) returns (start: int, rest: Option<string>)
    requires -1 <= endpos < |line| && NoAngles(line)
    ensures Reports(Backward(given, line[..endpos + 1]), start, rest)
  {
    var stack := given;
    var i := endpos;
    while i >= 0
      invariant -1 <= i <= endpos
      invariant Backward(given, line[..endpos + 1]) == Backward(stack, line[..i + 1])
    {
      var c := line[i];
      assert line[..i + 1][i] == c && line[..i + 1][..i] == line[..i];
      if c == ')' || c == ']' || c == '}' {
        stack := stack + [c];
      } else if c == '(' || c == '[' || c == '{' {
        if |stack| == 0 {
          return -1, None;
        }
        var top := stack[|stack| - 1];
        if (c == '(' && top == ')') || (c == '[' && top == ']') || (c == '{' && top == '}') {
          stack := stack[..|stack| - 1];
          if |stack| == 0 {
            return i, None;
          }
        } else {
          return -1, None;
        }
      } else if c == ';' {
        if |stack| == 0 {
          return -1, None;
        }
      }
      i := i - 1;
    }
    return -1, Some(stack);
  }

  lemma {:induction false} StaysOpenBackward(stack: string, s: string)
    requires |stack| > 0 && Backward(stack, s).Open?
    ensures |Backward(stack, s).stack| > 0
    decreases |s|
  {
    if |s| > 0 {
      var n := |s| - 1;
      if IsClose(s[n]) {
        StaysOpenBackward(stack + [s[n]], s[..n]);
      } else if IsOpen(s[n]) {
        StaysOpenBackward(stack[..|stack| - 1], s[..n]);
      } else {
        StaysOpenBackward(stack, s[..n]);
      }
    }
  }

  lemma LastOpens(s: string)
    requires |s| > 0 && IsClose(s[|s| - 1])
    ensures Backward("", s).Open? ==> |Backward("", s).stack| > 0
  {
    var n := |s| - 1;
    assert "" + [s[n]] == [s[n]];
    if Backward([s[n]], s[..n]).Open? {
      StaysOpenBackward([s[n]], s[..n]);
    }
  }

  lemma {:induction false} FoundInsideBackward(stack: string, s: string)
    ensures Backward(stack, s).Found? ==> Backward(stack, s).at < |s|
    decreases |s|
  {
    if |s| > 0 {
      var n := |s| - 1;
      if IsClose(s[n]) {
        FoundInsideBackward(stack + [s[n]], s[..n]);
      } else if IsOpen(s[n]) {
        if |stack| > 1 { FoundInsideBackward(stack[..|stack| - 1], s[..n]); }
      } else {
        FoundInsideBackward(stack, s[..n]);
      }
    }
  }

  lemma BackwardFrom(stack: string, t: string, k: nat, j: nat)
    requires k <= j <= |t|
    ensures Backward(stack, t[..j])
            == match Backward(stack, t[k..j]) case Open(st) => Backward(st, t[..k]) case r => r.Shift(k)
  {
    assert t[..j] == t[..k] + t[k..j];
    BackwardAppend(stack, t[..k], t[k..j]);
  }

  lemma StartHere(lines: seq<string>, linenum: nat, pos: nat, l: nat, start: nat)
    requires linenum < |lines| && pos < |lines[linenum]| && IsClose(lines[linenum][pos])
    requires l < |lines| && start < |lines[l]|
    requires var j := Offset(lines, linenum) + pos;
             j < |Flat(lines)| && Backward("", Flat(lines)[..j + 1]) == Found(Offset(lines, l) + start)
    ensures Matches(Flat(lines), Offset(lines, l) + start, Offset(lines, linenum) + pos)
  {
    hide Backward, Flat, Offset;
    CharAt(lines, linenum, pos);
    BackwardExact(Flat(lines), Offset(lines, l) + start, Offset(lines, linenum) + pos);
  }

  lemma NothingBefore(stack: string)
    ensures Backward(stack, "") == Open(stack)
  {
  }

  /** Finds the bracket that the one at the given place closes, and gives up exactly when there is none. */
  method ReverseCloseExpression(lines: seq<string>, linenum: nat, pos: nat) returns (startLine: nat, start: int)
    requires Plain(lines) && linenum < |lines| && pos < |lines[linenum]|
    ensures start > -1 ==> startLine < |lines| && start < |lines[startLine]|
                           && Matches(Flat(lines), Offset(lines, startLine) + start, Offset(lines, linenum) + pos)
    ensures start <= -1 ==> startLine == 0 && start == -1 && !HasOpen(Flat(lines), Offset(lines, linenum) + pos)
  {
    hide Backward, Flat, Paired;
    ghost var t, j := Flat(lines), Offset(lines, linenum) + pos;
    CharAt(lines, linenum, pos);
    var line := lines[linenum];
    if line[pos] != ')' && line[pos] != '}' && line[pos] != ']' {
      ClosersOnly(t, j);
      return 0, -1;
    }
    LineInFlat(lines, linenum);
    ghost var k := Offset(lines, linenum);
    PartOfLine(lines, linenum, pos);
    BackwardFrom("", t, k, j + 1);
    LastOpens(line[..pos + 1]);
    FoundInsideBackward("", line[..pos + 1]);
    var rest;
    start, rest := FindStartOfExpressionInLine(line, pos, "");
    if start > -1 {
      StartHere(lines, linenum, pos, linenum, start);
      return linenum, start;
    }
    var l := linenum;
    while rest.Some? && |rest.value| > 0 && l > 0
      invariant l <= linenum && start == -1 && Offset(lines, l) <= |t|
      invariant rest.Some? ==> |rest.value| > 0
      invariant rest.Some? ==> Backward("", t[..j + 1]) == Backward(rest.value, t[..Offset(lines, l)])
      invariant rest.None? ==> Backward("", t[..j + 1]) == Mismatch
      decreases l
    {
      l := l - 1;
      line := lines[l];
      LineInFlat(lines, l);
      assert line[..|line|] == line;
      BackwardFrom(rest.value, t, Offset(lines, l), Offset(lines, l + 1));
      var before := rest.value;
      start, rest := FindStartOfExpressionInLine(line, |line| - 1, before);
      FoundInsideBackward(before, line);
      if start > -1 {
        StartHere(lines, linenum, pos, l, start);
        return l, start;
      }
      if rest.Some? { StaysOpenBackward(before, line); }
    }
    if rest.Some? {
      assert t[..0] == "";
      NothingBefore(rest.value);
    }
    forall i: nat ensures !Matches(t, i, j) {
      BackwardExact(t, i, j);
    }
    return 0, -1;
  }

  lemma ClosersOnly(t: string, j: nat)
    requires j < |t| && !IsClose(t[j])
    ensures !HasOpen(t, j)
  {
    hide Paired;
    forall i: nat ensures !Matches(t, i, j) {
      if i < |t| && IsOpen(t[i]) { PartnerSwaps(t[i]); }
    }
  }

  // ---------- Inverses ----------

  /** A bracket has at most one partner on either side. */
  lemma MatchesUnique(t: string, i: nat, j: nat, k: nat, l: nat)
    requires Matches(t, i, j) && Matches(t, k, l)
    ensures i == k <==> j == l
  {
    hide Paired, Forward, Backward;
    if i == k {
      ForwardExact(t, i, j);
      ForwardExact(t, i, l);
    }
    if j == l {
      PartnerSwaps(t[i]);
      BackwardExact(t, i, j);
      BackwardExact(t, k, j);
    }
  }

  /** Going to the closing bracket and back returns to the opening one, whatever lines lie between. */
  method CloseThenReverse(lines: seq<string>, linenum: nat, pos: nat) returns (found: bool, line: nat, column: int)
    requires Plain(lines) && linenum < |lines| && pos < |lines[linenum]|
    ensures found <==> HasClose(Flat(lines), Offset(lines, linenum) + pos)
    ensures found ==> line == linenum && column == pos
  {
    hide Flat, Offset, Matches;
    var endLine, end := CloseExpression(lines, linenum, pos);
    found := end > -1;
    line, column := 0, -1;
    if found {
      line, column := ReverseCloseExpression(lines, endLine, end - 1);
      ghost var t, i, j := Flat(lines), Offset(lines, linenum) + pos, Offset(lines, endLine) + end - 1;
      assert HasOpen(t, j);
      MatchesUnique(t, i, j, Offset(lines, line) + column, j);
      PlaceUnique(lines, linenum, pos, line, column);
    }
  }
}
