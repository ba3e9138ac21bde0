/** Conditional compilation and the nesting stack (build-support/cpplint.py:2624-2811): the stack of open
    blocks ends up as if every branch but the first of each conditional were deleted. */
module Preprocessing {
  /** A line as far as nesting is concerned: a directive, or a change to the innermost blocks. Push is an
      opening brace, Pop a closing one, and Touch rewrites what is known of the innermost block. */
  datatype Line<T> = If | Else | Endif | Push(block: T) | Pop | Touch(now: T)

  predicate IsDirective<T>(l: Line<T>) { l.If? || l.Else? || l.Endif? }

  function Brace<T>(stack: seq<T>, l: Line<T>): seq<T> {
    match l
    case Push(x) => stack + [x]
    case Pop => if |stack| == 0 then stack else stack[..|stack| - 1]
    case Touch(x) => if |stack| == 0 then stack else stack[..|stack| - 1] + [x]
    case If => stack
    case Else => stack
    case Endif => stack
  }

  // ---------- The reference: deleting the other branches ----------

  /** For every open conditional, whether an else or elif has been seen. */
  function Flags<T>(flags: seq<bool>, l: Line<T>): seq<bool> {
    match l
    case If => flags + [false]
    case Else => if |flags| == 0 then flags else flags[..|flags| - 1] + [true]
    case Endif => if |flags| == 0 then flags else flags[..|flags| - 1]
    case Push(_) => flags
    case Pop => flags
    case Touch(_) => flags
  }

  function FlagsAfter<T>(flags: seq<bool>, lines: seq<Line<T>>): seq<bool>
    decreases |lines|
  {
    if |lines| == 0 then flags else FlagsAfter(Flags(flags, lines[0]), lines[1..])
  }

  predicate InFirstBranches(flags: seq<bool>) { forall i :: 0 <= i < |flags| ==> !flags[i] }

  /** The lines without directives and without those behind an else or elif of an open conditional. */
  function Kept<T>(flags: seq<bool>, lines: seq<Line<T>>): seq<Line<T>>
    decreases |lines|
  {
    if |lines| == 0 then []
    else
      (if !IsDirective(lines[0]) && InFirstBranches(flags) then [lines[0]] else [])
      + Kept(Flags(flags, lines[0]), lines[1..])
  }

  function Nest<T>(stack: seq<T>, lines: seq<Line<T>>): seq<T>
    decreases |lines|
  {
    if |lines| == 0 then stack else Nest(Brace(stack, lines[0]), lines[1..])
  }

  lemma {:induction false} NestAppend<T>(stack: seq<T>, a: seq<Line<T>>, b: seq<Line<T>>)
    ensures Nest(stack, a + b) == Nest(Nest(stack, a), b)
    decreases |a|
  {
    if |a| == 0 {
      assert a + b == b;
    } else {
      assert (a + b)[1..] == a[1..] + b;
      NestAppend(Brace(stack, a[0]), a[1..], b);
    }
  }

  /** Blocks of code: what stands between an opening brace and its closing one, and lines that rewrite
      what is known of the block they stand in. */
  datatype Code<T> = Block(block: T, body: seq<Code<T>>) | Statement(now: T)

  function CodeLines<T>(code: seq<Code<T>>): seq<Line<T>>
    decreases code
  {
    if |code| == 0 then []
    else
      (match code[0]
       case Block(x, body) => [Push(x)] + CodeLines(body) + [Pop]
       case Statement(x) => [Touch(x)])
      + CodeLines(code[1..])
  }

  /** The last rewriting of the block the code stands in, not of a block inside. */
  function LastStatement<T>(now: T, code: seq<Code<T>>): T {
    if |code| == 0 then now
    else LastStatement(if code[0].Statement? then code[0].now else now, code[1..])
  }

  lemma NestOne<T>(stack: seq<T>, l: Line<T>)
    ensures Nest(stack, [l]) == Brace(stack, l)
  {
    assert [l][1..] == [];
  }

  /** Blocks close: code inside a block leaves the blocks around it alone and touches only the innermost. */
  lemma {:induction false} BlocksClose<T>(around: seq<T>, now: T, code: seq<Code<T>>)
    ensures Nest(around + [now], CodeLines(code)) == around + [LastStatement(now, code)]
    decreases code
  {
    hide Nest;
    if |code| == 0 {
      NestNothing(around + [now]);
    } else {
      var stack := around + [now];
      var rest := CodeLines(code[1..]);
      match code[0]
      case Block(x, body) =>
        NestAppend(stack, [Push(x)] + CodeLines(body) + [Pop], rest);
        NestAppend(stack, [Push(x)] + CodeLines(body), [Pop]);
        NestAppend(stack, [Push(x)], CodeLines(body));
        NestOne(stack, Push(x));
        BlocksClose(stack, x, body);
        NestOne(stack + [LastStatement(x, body)], Pop);
        BlocksClose(around, now, code[1..]);
      case Statement(x) =>
        NestAppend(stack, [Touch(x)], rest);
        NestOne(stack, Touch(x));
        assert stack[..|around|] == around;
        BlocksClose(around, x, code[1..]);
    }
  }

  lemma NestNothing<T>(stack: seq<T>)
    ensures Nest(stack, []) == stack
  {
  }

  // ---------- The checkpoints ----------

  datatype PreprocessorInfo<T> = PreprocessorInfo(stackBeforeIf: seq<T>, stackBeforeElse: seq<T>, seenElse: bool)

  function SeenElse<T>(pp: seq<PreprocessorInfo<T>>): (f: seq<bool>)
    ensures |f| == |pp| && forall i :: 0 <= i < |pp| ==> f[i] == pp[i].seenElse
  {
    seq(|pp|, i requires 0 <= i < |pp| => pp[i].seenElse)
  }

  /** What the stack would be without the other branches: the outermost conditional behind an else has
      kept it. */
  function Effective<T>(stack: seq<T>, pp: seq<PreprocessorInfo<T>>): seq<T> {
    if |pp| == 0 then stack
    else if pp[0].seenElse then pp[0].stackBeforeElse
    else Effective(stack, pp[1..])
  }

  lemma {:induction false} EffectiveFirst<T>(stack: seq<T>, pp: seq<PreprocessorInfo<T>>)
    requires InFirstBranches(SeenElse(pp))
    ensures Effective(stack, pp) == stack
  {
    if |pp| > 0 {
      assert !SeenElse(pp)[0];
      forall i | 0 <= i < |pp[1..]| ensures !SeenElse(pp[1..])[i] { assert !SeenElse(pp)[i + 1]; }
      EffectiveFirst(stack, pp[1..]);
    }
  }

  /** Below an else nothing counts but the checkpoint. */
  lemma {:induction false} EffectiveElse<T>(stack: seq<T>, other: seq<T>, pp: seq<PreprocessorInfo<T>>)
    requires !InFirstBranches(SeenElse(pp))
    ensures Effective(stack, pp) == Effective(other, pp)
  {
    if !pp[0].seenElse {
      var i :| 0 <= i < |pp| && SeenElse(pp)[i];
      assert SeenElse(pp[1..])[i - 1];
      EffectiveElse(stack, other, pp[1..]);
    }
  }

  lemma {:induction false} EffectivePush<T>(stack: seq<T>, pp: seq<PreprocessorInfo<T>>, last: PreprocessorInfo<T>)
    ensures Effective(stack, pp + [last])
            == if InFirstBranches(SeenElse(pp)) then (if last.seenElse then last.stackBeforeElse else stack)
               else Effective(stack, pp)
    decreases |pp|
  {
    if |pp| == 0 {
      assert pp + [last] == [last];
      assert [last][1..] == [];
    } else {
      assert (pp + [last])[0] == pp[0] && (pp + [last])[1..] == pp[1..] + [last];
      if !pp[0].seenElse {
        EffectivePush(stack, pp[1..], last);
        assert InFirstBranches(SeenElse(pp)) <==> InFirstBranches(SeenElse(pp[1..])) by {
          assert forall i :: 0 < i < |pp| ==> SeenElse(pp)[i] == SeenElse(pp[1..])[i - 1];
          assert forall i :: 0 <= i < |pp| - 1 ==> SeenElse(pp[1..])[i] == SeenElse(pp)[i + 1];
        }
      } else {
        assert SeenElse(pp)[0];
      }
    }
  }

  class NestingState<T> {
    var stack: seq<T>
    var ppStack: seq<PreprocessorInfo<T>>

    constructor ()
      ensures stack == [] && ppStack == []
    {
      stack, ppStack := [], [];
    }

    /** Directives move checkpoints and the stack, but not what the stack amounts to. */
    method UpdatePreprocessor(line: Line<T>)
      requires IsDirective(line)
      modifies this
      ensures SeenElse(ppStack) == Flags(old(SeenElse(ppStack)), line)
      ensures Effective(stack, ppStack) == old(Effective(stack, ppStack))
    {
      ghost var n := |ppStack| - 1;
      ghost var before := ppStack;
      if n >= 0 {
        assert ppStack == ppStack[..n] + [ppStack[n]];
        EffectivePush(stack, ppStack[..n], ppStack[n]);
        if InFirstBranches(SeenElse(ppStack[..n])) { EffectiveFirst(stack, ppStack[..n]); }
      }
      if line.If? {
        ppStack := ppStack + [PreprocessorInfo(stack, [], false)];
        EffectivePush(stack, before, ppStack[n + 1]);
        if InFirstBranches(SeenElse(before)) { EffectiveFirst(stack, before); }
      } else if line.Else? {
        if |ppStack| > 0 {
          var top := ppStack[|ppStack| - 1];
          if !top.seenElse {
            top := top.(seenElse := true, stackBeforeElse := stack);
            ppStack := ppStack[..|ppStack| - 1] + [top];
          }
          ghost var was := stack;
          stack := top.stackBeforeIf;
          assert ppStack == before[..n] + [top];
          EffectivePush(stack, before[..n], top);
          if !InFirstBranches(SeenElse(before[..n])) { EffectiveElse(stack, was, before[..n]); }
        }
      } else {
        if |ppStack| > 0 {
          var top := ppStack[|ppStack| - 1];
          ghost var was := stack;
          if top.seenElse {
            stack := top.stackBeforeElse;
          }
          ppStack := ppStack[..|ppStack| - 1];
          if InFirstBranches(SeenElse(ppStack)) { EffectiveFirst(stack, ppStack); }
          else { EffectiveElse(stack, was, ppStack); }
        }
      }
    }

    /** The change a line of code makes to the stack. */
    method UpdateBraces(line: Line<T>)
      requires !IsDirective(line)
      modifies this`stack
      ensures stack == Brace(old(stack), line)
    {
      match line
      case Push(x) => stack := stack + [x];
      case Pop =>
        if |stack| > 0 {
          stack := stack[..|stack| - 1];
        }
      case Touch(x) =>
        if |stack| > 0 {
          stack := stack[..|stack| - 1] + [x];
        }
    }

    /** Whole files, well nested or not: the stack amounts to what the kept lines alone give, and is that
        stack whenever no else or elif branch is open at the end. */
    method ProcessLines(lines: seq<Line<T>>)
      requires ppStack == []
      modifies this
      ensures SeenElse(ppStack) == FlagsAfter([], lines)
      ensures Effective(stack, ppStack) == Nest(old(stack), Kept([], lines))
      ensures InFirstBranches(FlagsAfter([], lines)) ==> stack == Nest(old(stack), Kept([], lines))
    {
      assert lines[0..] == lines;
      for i := 0 to |lines|
        invariant FlagsAfter(SeenElse(ppStack), lines[i..]) == FlagsAfter([], lines)
        invariant Nest(Effective(stack, ppStack), Kept(SeenElse(ppStack), lines[i..])) == Nest(old(stack), Kept([], lines))
      {
        ghost var flags, was := SeenElse(ppStack), Effective(stack, ppStack);
        var line := lines[i];
        assert lines[i..][0] == line && lines[i..][1..] == lines[i + 1..];
        if line.If? || line.Else? || line.Endif? {
          UpdatePreprocessor(line);
          assert Kept(flags, lines[i..]) == Kept(SeenElse(ppStack), lines[i + 1..]);
        } else {
          ghost var old1 := stack;
          UpdateBraces(line);
          if InFirstBranches(flags) {
            EffectiveFirst(old1, ppStack);
            EffectiveFirst(stack, ppStack);
            NestAppend(was, [line], Kept(flags, lines[i + 1..]));
            assert [line][1..] == [];
            assert Nest(was, [line]) == stack;
          } else {
            EffectiveElse(stack, old1, ppStack);
            assert Kept(flags, lines[i..]) == Kept(flags, lines[i + 1..]);
          }
        }
      }
      assert lines[|lines|..] == [];
      if InFirstBranches(SeenElse(ppStack)) { EffectiveFirst(stack, ppStack); }
    }
  }

  // ---------- Well-nested files ----------

  /** With depth conditionals open, the lines close them all and have no stray else or endif. */
  predicate WellNested<T>(depth: nat, lines: seq<Line<T>>)
    decreases |lines|
  {
    if |lines| == 0 then depth == 0
    else
      var l := lines[0];
      if l.If? then WellNested(depth + 1, lines[1..])
      else if l.Endif? then depth > 0 && WellNested(depth - 1, lines[1..])
      else (l.Else? ==> depth > 0) && WellNested(depth, lines[1..])
  }

  /** A well-nested file closes all its conditionals, so the stack of checkpoints is empty again. */
  lemma {:induction false} WellNestedCloses<T>(flags: seq<bool>, lines: seq<Line<T>>)
    requires WellNested(|flags|, lines)
    ensures FlagsAfter(flags, lines) == []
    decreases |lines|
  {
    if |lines| > 0 {
      WellNestedCloses(Flags(flags, lines[0]), lines[1..]);
    }
  }

  /** Else and elif branches one after the other. */
  function Branches<T>(others: seq<seq<Line<T>>>): seq<Line<T>> {
    if |others| == 0 then [] else [Else] + (others[0] + Branches(others[1..]))
  }

  /** A whole conditional in an otherwise well-nested place counts as its first branch alone, whatever
      other branches it has. */
  lemma {:induction false} FirstBranchOnly<T>(first: seq<Line<T>>, others: seq<seq<Line<T>>>, rest: seq<Line<T>>)
    requires WellNested(0, first) && forall i :: 0 <= i < |others| ==> WellNested(0, others[i])
    ensures Kept([], [If] + first + Branches(others) + [Endif] + rest) == Kept([], first) + Kept([], rest)
  {
    hide Kept, WellNested, Branches;
    var tail := Branches(others) + ([Endif] + rest);
    var whole := [If] + (first + tail);
    assert [If] + first + Branches(others) + [Endif] + rest == whole;
    StepOver([], whole, first + tail);
    assert [] + [false] == [false] && [false] + [] == [false];
    KeptInside([false], [], first, tail);
    OthersDropped(false, others, rest);
  }

  /** Other branches leave nothing, whether the first of them is still to come or not. */
  lemma {:induction false} OthersDropped<T>(seen: bool, others: seq<seq<Line<T>>>, rest: seq<Line<T>>)
    requires forall i :: 0 <= i < |others| ==> WellNested(0, others[i])
    ensures Kept([seen], Branches(others) + ([Endif] + rest)) == Kept([], rest)
    decreases |others|
  {
    hide Kept, WellNested;
    var end := [Endif] + rest;
    if |others| == 0 {
      assert Branches(others) + end == end && [seen][..0] == [];
      StepOver([seen], end, rest);
    } else {
      var more := Branches(others[1..]) + end;
      assert Branches(others) + end == [Else] + (others[0] + more);
      assert [seen][..0] + [true] == [true] && [true] + [] == [true];
      StepOver([seen], [Else] + (others[0] + more), others[0] + more);
      assert [true][0];
      KeptInside([true], [], others[0], more);
      OthersDropped(true, others[1..], rest);
    }
  }

  lemma StepOver<T>(flags: seq<bool>, lines: seq<Line<T>>, rest: seq<Line<T>>)
    requires |lines| > 0 && IsDirective(lines[0]) && lines == [lines[0]] + rest
    ensures Kept(flags, lines) == Kept(Flags(flags, lines[0]), rest)
  {
    assert lines[1..] == rest;
  }

  /** Below the given conditionals a well-nested stretch is kept or dropped as a whole. */
  lemma {:induction false} KeptInside<T>(outer: seq<bool>, inner: seq<bool>, lines: seq<Line<T>>, rest: seq<Line<T>>)
    requires WellNested(|inner|, lines)
    ensures Kept(outer + inner, lines + rest)
            == (if InFirstBranches(outer) then Kept(inner, lines) else []) + Kept(outer, rest)
    decreases |lines|
  {
    hide Kept, Flags, InFirstBranches;
    if |lines| == 0 {
      assert lines + rest == rest && outer + inner == outer;
      KeptNothing<T>(inner);
      assert [] + Kept(outer, rest) == Kept(outer, rest);
    } else {
      var l := lines[0];
      var next := Flags(inner, l);
      Behind(lines, rest);
      NestedStep(|inner|, lines);
      FlagsBelow(outer, inner, l);
      FlagsDepth(inner, l);
      KeptInside(outer, next, lines[1..], rest);
      BothFirst(outer, inner);
      KeptStep(outer + inner, lines + rest);
      KeptStep(inner, lines);
      hide WellNested, IsDirective;
      var own := if !IsDirective(l) && InFirstBranches(inner) then [l] else [];
      Regrouped(own, Kept(next, lines[1..]), Kept(outer, rest));
      Regrouped([], [], Kept(outer, rest));
    }
  }

  lemma Behind<T>(lines: seq<Line<T>>, rest: seq<Line<T>>)
    requires |lines| > 0
    ensures (lines + rest)[0] == lines[0] && (lines + rest)[1..] == lines[1..] + rest
  {
  }

  lemma Regrouped<T>(a: seq<Line<T>>, b: seq<Line<T>>, c: seq<Line<T>>)
    ensures a + (b + c) == a + b + c && [] + c == c
  {
  }

  lemma KeptNothing<T>(flags: seq<bool>)
    ensures Kept<T>(flags, []) == []
  {
  }

  lemma NestedStep<T>(depth: nat, lines: seq<Line<T>>)
    requires |lines| > 0 && WellNested(depth, lines)
    ensures depth == 0 ==> !lines[0].Else? && !lines[0].Endif?
    ensures WellNested(if lines[0].If? then depth + 1 else if lines[0].Endif? then depth - 1 else depth, lines[1..])
  {
  }

  lemma FlagsDepth<T>(flags: seq<bool>, l: Line<T>)
    requires |flags| == 0 ==> !l.Endif?
    ensures |Flags(flags, l)| == if l.If? then |flags| + 1 else if l.Endif? then |flags| - 1 else |flags|
  {
  }

  lemma KeptStep<T>(flags: seq<bool>, lines: seq<Line<T>>)
    requires |lines| > 0
    ensures Kept(flags, lines)
            == (if !IsDirective(lines[0]) && InFirstBranches(flags) then [lines[0]] else [])
               + Kept(Flags(flags, lines[0]), lines[1..])
  {
    hide Flags, InFirstBranches, IsDirective;
  }

  lemma BothFirst(outer: seq<bool>, inner: seq<bool>)
    ensures InFirstBranches(outer + inner) <==> InFirstBranches(outer) && InFirstBranches(inner)
  {
    if InFirstBranches(outer + inner) {
      forall i | 0 <= i < |outer| ensures !outer[i] { assert !(outer + inner)[i]; }
      forall i | 0 <= i < |inner| ensures !inner[i] { assert !(outer + inner)[|outer| + i]; }
    }
  }

  lemma FlagsBelow<T>(outer: seq<bool>, inner: seq<bool>, l: Line<T>)
    requires |inner| == 0 ==> !l.Else? && !l.Endif?
    ensures Flags(outer + inner, l) == outer + Flags(inner, l)
  {
  }
}
