/** Missing returns (src/ast/ast.cpp:204-221, src/sema/sema_expr.cpp:173-188): a function that passes
    the check never runs past its last statement. */
module Termination {
  import opened Options

  /** Statements as control flow; Simple is any statement that just continues. */
  datatype Stmt =
    | Simple
    | Return
    | Block(stmts: seq<Stmt>)
    | If(yes: Stmt, els: Option<Stmt>)
    | For(init: Option<Stmt>, conditional: bool, next: Option<Stmt>, body: Stmt)

  /** Taking the last statement of an empty block is undefined behaviour. */
  datatype Verdict = Yes | No | Undefined

  function IsTerminating(s: Stmt): Verdict
    decreases s
  {
    match s
    case Block(stmts) => if |stmts| == 0 then Undefined else IsTerminating(stmts[|stmts| - 1])
    case If(yes, els) =>
      if els.None? then No
      else
        var t := IsTerminating(yes);
        if t.Yes? then IsTerminating(els.value) else t
    case Return => Yes
    case Simple => No
    case For(_, _, _, _) => No
  }

  // ---------- Running statements ----------

  /** A run completes normally with choices left over, returns, or has not ended after the choices. */
  datatype Outcome = Completed(rest: seq<bool>) | Returned | Running

  /** Runs s under the given outcomes of its conditions; each turn of a loop takes one choice. */
  function Run(s: Stmt, choices: seq<bool>): (r: Outcome)
    ensures r.Completed? ==> |r.rest| <= |choices|
    decreases |choices|, s, 2
  {
    match s
    case Simple => Completed(choices)
    case Return => Returned
    case Block(stmts) => RunAll(stmts, choices)
    case If(yes, els) =>
      if |choices| == 0 then Running
      else if choices[0] then Run(yes, choices[1..])
      else if els.Some? then Run(els.value, choices[1..])
      else Completed(choices[1..])
    case For(init, _, _, _) =>
      var i := if init.Some? then Run(init.value, choices) else Completed(choices);
      if !i.Completed? then i else RunLoop(s, i.rest)
  }

  function RunAll(stmts: seq<Stmt>, choices: seq<bool>): (r: Outcome)
    ensures r.Completed? ==> |r.rest| <= |choices|
    decreases |choices|, stmts, 0
  {
    if |stmts| == 0 then Completed(choices)
    else
      var r := Run(stmts[0], choices);
      if !r.Completed? then r else RunAll(stmts[1..], r.rest)
  }

  function RunLoop(s: Stmt, choices: seq<bool>): (r: Outcome)
    requires s.For?
    ensures r.Completed? ==> |r.rest| <= |choices|
    decreases |choices|, s, 1
  {
    if |choices| == 0 then Running
    else if s.conditional && !choices[0] then Completed(choices[1..])
    else
      var b := Run(s.body, choices[1..]);
      if !b.Completed? then b
      else
        var n := if s.next.Some? then Run(s.next.value, b.rest) else b;
        if !n.Completed? then n else RunLoop(s, n.rest)
  }

  lemma {:induction false} RunAllLast(stmts: seq<Stmt>, choices: seq<bool>)
    requires |stmts| > 0
    ensures var r := RunAll(stmts[..|stmts| - 1], choices);
            RunAll(stmts, choices) == if r.Completed? then Run(stmts[|stmts| - 1], r.rest) else r
    decreases |stmts|
  {
    var front := stmts[..|stmts| - 1];
    if |stmts| == 1 {
      var r := Run(stmts[0], choices);
      assert r.Completed? ==> RunAll(stmts[1..], r.rest) == r;
    } else {
      assert front[0] == stmts[0] && front[1..] == stmts[1..][..|stmts| - 2];
      var r := Run(stmts[0], choices);
      if r.Completed? {
        RunAllLast(stmts[1..], r.rest);
      }
    }
  }

  /** A statement the check calls terminating never completes normally. */
  lemma {:induction false} TerminatingSound(s: Stmt, choices: seq<bool>)
    requires IsTerminating(s).Yes?
    ensures !Run(s, choices).Completed?
    decreases s
  {
    match s
    case Block(stmts) =>
      RunAllLast(stmts, choices);
      var r := RunAll(stmts[..|stmts| - 1], choices);
      if r.Completed? {
        TerminatingSound(stmts[|stmts| - 1], r.rest);
      }
    case If(yes, els) =>
      if |choices| > 0 {
        TerminatingSound(yes, choices[1..]);
        TerminatingSound(els.value, choices[1..]);
      }
    case Return =>
  }

  // ---------- Exactly which statements can complete ----------

  predicate CanComplete(s: Stmt)
    decreases s
  {
    match s
    case Simple => true
    case Return => false
    case Block(stmts) => forall i :: 0 <= i < |stmts| ==> CanComplete(stmts[i])
    case If(yes, els) => els.None? || CanComplete(yes) || CanComplete(els.value)
    case For(init, conditional, _, _) => conditional && (init.Some? ==> CanComplete(init.value))
  }

  lemma {:induction false} CompletesOnlyIf(s: Stmt, choices: seq<bool>)
    requires Run(s, choices).Completed?
    ensures CanComplete(s)
    decreases |choices|, s, 2
  {
    match s
    case Simple =>
    case Block(stmts) => AllCompleteOnlyIf(stmts, choices);
    case If(yes, els) =>
      if choices[0] {
        CompletesOnlyIf(yes, choices[1..]);
      } else if els.Some? {
        CompletesOnlyIf(els.value, choices[1..]);
      }
    case For(init, _, _, _) =>
      if init.Some? {
        CompletesOnlyIf(init.value, choices);
        LoopCompletesOnlyIf(s, Run(init.value, choices).rest);
      } else {
        LoopCompletesOnlyIf(s, choices);
      }
  }

  lemma {:induction false} AllCompleteOnlyIf(stmts: seq<Stmt>, choices: seq<bool>)
    requires RunAll(stmts, choices).Completed?
    ensures forall i :: 0 <= i < |stmts| ==> CanComplete(stmts[i])
    decreases |choices|, stmts, 0
  {
    if |stmts| > 0 {
      CompletesOnlyIf(stmts[0], choices);
      AllCompleteOnlyIf(stmts[1..], Run(stmts[0], choices).rest);
      assert forall i :: 0 < i < |stmts| ==> stmts[i] == stmts[1..][i - 1];
    }
  }

  lemma {:induction false} LoopCompletesOnlyIf(s: Stmt, choices: seq<bool>)
    requires s.For? && RunLoop(s, choices).Completed?
    ensures s.conditional
    decreases |choices|, s, 1
  {
    if !(s.conditional && !choices[0]) {
      var b := Run(s.body, choices[1..]);
      var n := if s.next.Some? then Run(s.next.value, b.rest) else b;
      LoopCompletesOnlyIf(s, n.rest);
    }
  }

  /** Choices under which a statement that can complete does, whatever choices follow. */
  function Way(s: Stmt): seq<bool>
    requires CanComplete(s)
    decreases s
  {
    match s
    case Simple => []
    case Block(stmts) => WayThrough(stmts)
    case If(yes, els) =>
      if els.None? then [false]
      else if CanComplete(yes) then [true] + Way(yes)
      else [false] + Way(els.value)
    case For(init, _, _, _) => (if init.Some? then Way(init.value) else []) + [false]
  }

  function WayThrough(stmts: seq<Stmt>): seq<bool>
    requires forall i :: 0 <= i < |stmts| ==> CanComplete(stmts[i])
    decreases stmts
  {
    if |stmts| == 0 then [] else Way(stmts[0]) + WayThrough(stmts[1..])
  }

  lemma {:induction false} WayCompletes(s: Stmt, more: seq<bool>)
    requires CanComplete(s)
    ensures Run(s, Way(s) + more) == Completed(more)
    decreases s
  {
    match s
    case Simple => assert [] + more == more;
    case Block(stmts) => WayThroughCompletes(stmts, more);
    case If(yes, els) =>
      var way := Way(s) + more;
      if els.None? {
        assert way[1..] == more;
      } else if CanComplete(yes) {
        assert way[1..] == Way(yes) + more;
        WayCompletes(yes, more);
      } else {
        assert way[1..] == Way(els.value) + more;
        WayCompletes(els.value, more);
      }
    case For(init, _, _, _) =>
      assert ([false] + more)[1..] == more;
      if init.Some? {
        assert Way(s) + more == Way(init.value) + ([false] + more);
        WayCompletes(init.value, [false] + more);
      } else {
        assert Way(s) + more == [false] + more;
      }
  }

  lemma {:induction false} WayThroughCompletes(stmts: seq<Stmt>, more: seq<bool>)
    requires forall i :: 0 <= i < |stmts| ==> CanComplete(stmts[i])
    ensures RunAll(stmts, WayThrough(stmts) + more) == Completed(more)
    decreases stmts
  {
    if |stmts| == 0 {
      assert [] + more == more;
    } else {
      assert WayThrough(stmts) + more == Way(stmts[0]) + (WayThrough(stmts[1..]) + more);
      WayCompletes(stmts[0], WayThrough(stmts[1..]) + more);
      WayThroughCompletes(stmts[1..], more);
    }
  }

  /** Running a statement can complete exactly when its structure allows it, and no such statement is
      called terminating. */
  lemma {:induction false} CompletesIff(s: Stmt)
    ensures CanComplete(s) <==> exists choices :: Run(s, choices).Completed?
    ensures IsTerminating(s).Yes? ==> !CanComplete(s)
  {
    if CanComplete(s) {
      WayCompletes(s, []);
      assert Run(s, Way(s) + []).Completed?;
      if IsTerminating(s).Yes? {
        TerminatingSound(s, Way(s) + []);
      }
    }
    if exists choices :: Run(s, choices).Completed? {
      var choices :| Run(s, choices).Completed?;
      CompletesOnlyIf(s, choices);
    }
  }

  // ---------- Exactly what the check overlooks ----------

  /** Returning or looping for ever where the check does not look: before the end of a block, below the
      branches of an if, in the head of a loop or in a loop without a condition. */
  predicate Overlooked(s: Stmt)
    decreases s
  {
    match s
    case Simple => false
    case Return => false
    case Block(stmts) =>
      && |stmts| > 0
      && var last := stmts[|stmts| - 1];
         Overlooked(last) || (!IsTerminating(last).Yes? && exists i :: 0 <= i < |stmts| - 1 && !CanComplete(stmts[i]))
    case If(yes, els) =>
      && els.Some? && !CanComplete(yes) && !CanComplete(els.value)
      && (Overlooked(yes) || Overlooked(els.value))
    case For(init, conditional, _, _) => !conditional || (init.Some? && !CanComplete(init.value))
  }

  /** The check turns down a statement that cannot complete exactly when it overlooks why. */
  lemma {:induction false} OverlookedIff(s: Stmt)
    ensures Overlooked(s) <==> !CanComplete(s) && !IsTerminating(s).Yes?
    decreases s
  {
    match s
    case Simple =>
    case Return =>
    case Block(stmts) =>
      if |stmts| > 0 {
        OverlookedIff(stmts[|stmts| - 1]);
        CompletesIff(stmts[|stmts| - 1]);
        if forall i :: 0 <= i < |stmts| - 1 ==> CanComplete(stmts[i]) {
          assert CanComplete(stmts[|stmts| - 1]) ==> forall i :: 0 <= i < |stmts| ==> CanComplete(stmts[i]);
        }
      }
    case If(yes, els) =>
      OverlookedIff(yes);
      CompletesIff(yes);
      if els.Some? {
        OverlookedIff(els.value);
        CompletesIff(els.value);
      }
    case For(_, _, _, _) =>
  }

  /** Statements without early exits: in a block everything before the last statement can complete, and
      loops have a condition that can be reached. */
  predicate Plain(s: Stmt)
    decreases s
  {
    match s
    case Simple => true
    case Return => true
    case Block(stmts) =>
      |stmts| > 0 ==> Plain(stmts[|stmts| - 1]) && forall i :: 0 <= i < |stmts| - 1 ==> CanComplete(stmts[i])
    case If(yes, els) => els.Some? ==> Plain(yes) && Plain(els.value)
    case For(init, conditional, _, _) => conditional && (init.Some? ==> CanComplete(init.value))
  }

  lemma {:induction false} PlainIsSeen(s: Stmt)
    requires Plain(s)
    ensures !Overlooked(s)
    decreases s
  {
    match s
    case Simple =>
    case Return =>
    case Block(stmts) => if |stmts| > 0 { PlainIsSeen(stmts[|stmts| - 1]); }
    case If(yes, els) =>
      if els.Some? {
        PlainIsSeen(yes);
        PlainIsSeen(els.value);
      }
    case For(_, _, _, _) =>
  }

  /** On statements without early exits the check is exact: it says terminating exactly when no run
      completes. */
  lemma PlainExact(s: Stmt)
    requires Plain(s)
    ensures IsTerminating(s).Yes? <==> forall choices :: !Run(s, choices).Completed?
  {
    hide Plain, Overlooked, CanComplete, IsTerminating, Run;
    PlainIsSeen(s);
    OverlookedIff(s);
    CompletesIff(s);
  }

  lemma NeedlesslyRejected()
    ensures var s := Block([Return, Simple]); IsTerminating(s).No? && !CanComplete(s)
    ensures var s := For(None, false, None, Block([])); IsTerminating(s).No? && !CanComplete(s)
  {
    assert !CanComplete([Return, Simple][0]);
    assert IsTerminating([Return, Simple][1]).No?;
  }

  // ---------- Function literals ----------

  /** The body of a function literal, whose statements the checker may extend. */
  class BodyNode {
    var statements: seq<Stmt>

    constructor (statements: seq<Stmt>)
      ensures this.statements == statements
    {
      this.statements := statements;
    }

    /** The return check on a visited body; ok says that no error is reported. Looking for the last
        statement must not come to an empty block inside the body. */
    method CheckReturn(returnsNil: bool) returns (ok: bool)
      requires |statements| > 0 ==> !IsTerminating(Block(statements)).Undefined?
      modifies this
      ensures ok <==> returnsNil || (|old(statements)| > 0 && IsTerminating(Block(old(statements))).Yes?)
      ensures statements
              == old(statements) + if returnsNil && CanReturnBeElided(old(statements)) then [Return] else []
      ensures ok ==> forall choices :: !RunAll(statements, choices).Completed?
      ensures ok ==> forall choices ::
                var before := RunAll(old(statements), choices);
                RunAll(statements, choices) == if before.Completed? then Returned else before
    {
      if |statements| == 0 || !IsTerminating(Block(statements)).Yes? {
        if !returnsNil {
          return false;
        }
        statements := statements + [Return];
        forall choices ensures RunAll(statements, choices)
            == var before := RunAll(old(statements), choices); if before.Completed? then Returned else before {
          assert statements[..|statements| - 1] == old(statements);
          RunAllLast(statements, choices);
        }
      } else {
        forall choices ensures !RunAll(statements, choices).Completed? {
          TerminatingSound(Block(statements), choices);
        }
      }
      return true;
    }
  }

  predicate CanReturnBeElided(stmts: seq<Stmt>) { |stmts| == 0 || !IsTerminating(Block(stmts)).Yes? }
}
