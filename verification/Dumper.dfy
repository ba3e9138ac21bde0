/** The tree dumper (src/ast/ast_dump.cpp): children wait on a stack until it is known whether they are
    the last of their parent. The output is that of a recursive renderer told so in advance. */
module Dumping {
  /** A node as it is dumped: the line written for it and its children. Statements that only wrap a
      declaration or an expression are dumped as what they wrap. */
  datatype Tree = Tree(head: string, kids: seq<Tree>)

  // ---------- The recursive renderer ----------

  function Branch(last: bool): string { if last then "\U{2514}" else "\U{251C}" }

  function Indent(last: bool): (s: string)
    ensures |s| == 3
  {
    (if last then "  " else " |") + " "
  }

  function Render(t: Tree, prefix: string, last: bool): string
    decreases t
  {
    "\n" + prefix + " " + Branch(last) + "\U{2014}" + t.head + RenderAll(t.kids, prefix + Indent(last))
  }

  /** The children in order; only the final one is rendered as last. */
  function RenderAll(kids: seq<Tree>, prefix: string): string
    decreases kids
  {
    if |kids| == 0 then "" else Render(kids[0], prefix, |kids| == 1) + RenderAll(kids[1..], prefix)
  }

  /** The first children, none of them rendered as last. */
  function RenderInner(kids: seq<Tree>, prefix: string): string {
    if |kids| == 0 then ""
    else RenderInner(kids[..|kids| - 1], prefix) + Render(kids[|kids| - 1], prefix, false)
  }

  lemma {:induction false} LastOfAll(kids: seq<Tree>, prefix: string)
    requires |kids| > 0
    ensures RenderAll(kids, prefix) == RenderInner(kids[..|kids| - 1], prefix) + Render(kids[|kids| - 1], prefix, true)
  {
    hide Render;
    if |kids| == 1 {
      assert RenderAll(kids[1..], prefix) == "";
    } else {
      LastOfAll(kids[1..], prefix);
      InnerFront(kids[..|kids| - 1], prefix);
      assert kids[1..][..|kids| - 2] == kids[..|kids| - 1][1..];
    }
  }

  lemma {:induction false} InnerFront(kids: seq<Tree>, prefix: string)
    requires |kids| > 0
    ensures RenderInner(kids, prefix) == Render(kids[0], prefix, false) + RenderInner(kids[1..], prefix)
  {
    hide Render;
    var n := |kids| - 1;
    if n > 0 {
      InnerFront(kids[..n], prefix);
      assert kids[1..][..n - 1] == kids[..n][1..];
    }
  }

  lemma RenderParts(t: Tree, prefix: string, last: bool)
    ensures Render(t, prefix, last)
            == ("\n" + prefix + " " + Branch(last) + "\U{2014}") + (t.head + RenderAll(t.kids, prefix + Indent(last)))
  {
    hide Branch, Indent, RenderAll;
  }

  // ---------- Line by line ----------

  /** What stands in front of a node's own mark: for every node above it a column, empty below a last child. */
  function Columns(above: seq<bool>): string {
    if |above| == 0 then "" else Columns(above[..|above| - 1]) + if above[|above| - 1] then "   " else " | "
  }

  function Line(head: string, above: seq<bool>, last: bool): string {
    "\n" + Columns(above) + (if last then " \U{2514}\U{2014}" else " \U{251C}\U{2014}") + head
  }

  /** The lines of a tree, every node before the nodes below it. */
  function Lines(t: Tree, above: seq<bool>, last: bool): seq<string>
    decreases t
  {
    [Line(t.head, above, last)] + AllLines(t.kids, above + [last])
  }

  function AllLines(kids: seq<Tree>, above: seq<bool>): seq<string>
    decreases kids
  {
    if |kids| == 0 then [] else Lines(kids[0], above, |kids| == 1) + AllLines(kids[1..], above)
  }

  function Flatten(lines: seq<string>): string {
    if |lines| == 0 then "" else lines[0] + Flatten(lines[1..])
  }

  lemma {:induction false} FlattenAppend(a: seq<string>, b: seq<string>)
    ensures Flatten(a + b) == Flatten(a) + Flatten(b)
    decreases |a|
  {
    if |a| == 0 {
      assert a + b == b;
    } else {
      assert (a + b)[1..] == a[1..] + b;
      FlattenAppend(a[1..], b);
    }
  }

  /** One line for each node. */
  lemma {:induction false} RendersLines(t: Tree, above: seq<bool>, last: bool)
    ensures Render(t, Columns(above), last) == Flatten(Lines(t, above, last))
    decreases t
  {
    hide Columns, AllLines, RenderAll, Flatten;
    DeeperColumns(above, last);
    RendersAllLines(t.kids, above + [last]);
    FlattenAppend([Line(t.head, above, last)], AllLines(t.kids, above + [last]));
    OneLine(Line(t.head, above, last));
  }

  lemma OneLine(line: string)
    ensures Flatten([line]) == line
  {
    assert [line][1..] == [];
  }

  lemma DeeperColumns(above: seq<bool>, last: bool)
    ensures Columns(above + [last]) == Columns(above) + Indent(last)
  {
    assert (above + [last])[..|above|] == above;
  }

  lemma {:induction false} RendersAllLines(kids: seq<Tree>, above: seq<bool>)
    ensures RenderAll(kids, Columns(above)) == Flatten(AllLines(kids, above))
    decreases kids
  {
    if |kids| == 0 {
    } else {
      hide Render, Columns, Lines, Flatten;
      RendersLines(kids[0], above, |kids| == 1);
      RendersAllLines(kids[1..], above);
      FlattenAppend(Lines(kids[0], above, |kids| == 1), AllLines(kids[1..], above));
    }
  }

  // ---------- The dumper ----------

  class AstDumper {
    var out: string
    var prefix: string
    var firstChild: bool
    var topLevel: bool
    var pending: seq<Tree>

    constructor ()
      ensures out == "" && prefix == "" && firstChild && topLevel && pending == []
    {
      out, prefix, firstChild, topLevel, pending := "", "", true, true, [];
    }

    /** Runs a pending entry: it is rendered, and prefix and pending entries are as they were. */
    method RunEntry(t: Tree, last: bool)
      modifies this
      ensures out == old(out) + Render(t, old(prefix), last)
      ensures prefix == old(prefix) && pending == old(pending) && topLevel == old(topLevel) && firstChild
      decreases t, 2
    {
      hide Branch, Indent, Render, RenderInner;
      ghost var line := "\n" + prefix + " " + Branch(last) + "\U{2014}";
      out := out + ("\n" + prefix + " " + Branch(last) + "\U{2014}");
      prefix := prefix + Indent(last);
      firstChild := true;
      var depth := |pending|;
      VisitNode(t);
      Drain(depth, t);
      if |t.kids| > 0 {
        LastOfAll(t.kids, prefix);
      }
      RenderParts(t, old(prefix), last);
      assert out == old(out) + line + t.head + RenderAll(t.kids, prefix);
      assert out == old(out) + (line + (t.head + RenderAll(t.kids, prefix)));
      prefix := prefix[..|prefix| - 3];
    }

    /** Writes the node and enters its children; all but the last are rendered on the way. */
    method VisitNode(t: Tree)
      requires firstChild
      modifies this
      ensures out == old(out) + t.head + (if |t.kids| == 0 then "" else RenderInner(t.kids[..|t.kids| - 1], prefix))
      ensures prefix == old(prefix) && topLevel == old(topLevel) && firstChild == (|t.kids| == 0)
      ensures pending == old(pending) + (if |t.kids| == 0 then [] else [t.kids[|t.kids| - 1]])
      decreases t, 1
    {
      hide Render;
      out := out + t.head;
      label Head:
      for i := 0 to |t.kids|
        invariant prefix == old(prefix) && topLevel == old(topLevel) && firstChild == (i == 0)
        invariant pending == old(pending) + (if i == 0 then [] else [t.kids[i - 1]])
        invariant out == old@Head(out) + (if i == 0 then "" else RenderInner(t.kids[..i - 1], prefix))
      {
        DumpChild(t.kids[i], t);
        if i > 0 {
          assert t.kids[..i][..i - 1] == t.kids[..i - 1];
        }
      }
    }

    /** Defers a child and, unless it is the first, renders the one deferred before it as not last. */
    method DumpChild(kid: Tree, ghost parent: Tree)
      requires firstChild || (|pending| > 0 && pending[|pending| - 1] in parent.kids)
      modifies this
      ensures !firstChild && prefix == old(prefix) && topLevel == old(topLevel)
      ensures old(firstChild) ==> pending == old(pending) + [kid] && out == old(out)
      ensures !old(firstChild) ==> pending == old(pending)[..|old(pending)| - 1] + [kid]
      ensures !old(firstChild) ==> out == old(out) + Render(old(pending)[|old(pending)| - 1], prefix, false)
      decreases parent, 0
    {
      if firstChild {
        pending := pending + [kid];
      } else {
        RunEntry(pending[|pending| - 1], false);
        pending := pending[|pending| - 1 := kid];
      }
      firstChild := false;
    }

    /** Runs the entries above depth as last children. */
    method Drain(depth: nat, ghost parent: Tree)
      requires depth <= |pending| <= depth + 1
      requires |pending| > depth ==> pending[depth] in parent.kids
      requires |pending| == depth ==> firstChild
      modifies this
      ensures pending == old(pending)[..depth] && prefix == old(prefix) && topLevel == old(topLevel) && firstChild
      ensures out == old(out) + if |old(pending)| == depth then "" else Render(old(pending)[depth], prefix, true)
      decreases parent, 0
    {
      while depth < |pending|
        invariant depth <= |pending| <= |old(pending)| && pending == old(pending)[..|pending|]
        invariant prefix == old(prefix) && topLevel == old(topLevel) && (|pending| == depth ==> firstChild)
        invariant out == old(out) + if |pending| == |old(pending)| then "" else Render(old(pending)[depth], prefix, true)
        decreases |pending|
      {
        var entry := pending[|pending| - 1];
        pending := pending[..|pending| - 1];
        RunEntry(entry, true);
      }
    }

    /** The file at the root. Its declarations are the children of one top-level entry, which is run at
        once; for want of a return the entry is then pushed as well, and never run. */
    method VisitFile(file: Tree)
      requires topLevel && firstChild && pending == [] && prefix == ""
      modifies this
      ensures out == old(out) + file.head + Flatten(AllLines(file.kids, [])) + "\n"
      ensures prefix == "" && topLevel && !firstChild && pending == [Tree("", file.kids)]
    {
      hide Render, RenderInner;
      out := out + file.head;
      topLevel := false;
      var entry := Tree("", file.kids);
      VisitNode(entry);
      Drain(0, entry);
      if |file.kids| > 0 {
        LastOfAll(file.kids, "");
      }
      assert out == old(out) + file.head + RenderAll(file.kids, "");
      RendersAllLines(file.kids, []);
      prefix := "";
      out := out + "\n";
      topLevel := true;
      assert firstChild;
      pending := pending + [entry];
      firstChild := false;
    }
  }
}
