/** What the serialisers promise, stated against definitions that do not share
    their code: a line-by-line outline of the rendered tree, and an inverse of
    line numbering. */
module RenderProperties {
  import opened Text
  import opened Path

  // ===========================================================================
  // addLineNumbers

  lemma NumberedLinesHaveNoNewline(lines: seq<string>)
    requires forall i :: 0 <= i < |lines| ==> '\n' !in lines[i]
    ensures forall i :: 0 <= i < |NumberLines(lines)| ==> '\n' !in NumberLines(lines)[i]
  {
  }

  /** With numbering on, the output has as many lines as `code.split("\n")`,
      and line i is the number i + 1, " | ", and the original line i. */
  lemma AddLineNumbersLines(code: string)
    ensures var out := Split(AddLineNumbers(code, true), '\n');
            var lines := Split(code, '\n');
            |out| == |lines| &&
            forall i :: 0 <= i < |lines| ==> out[i] == DecimalString(i + 1) + " | " + lines[i]
  {
    var lines := Split(code, '\n');
    NumberedLinesHaveNoNewline(lines);
    SplitJoin(NumberLines(lines), '\n');
  }

  /** Line `index` carries the prefix numbering would have given it. */
  predicate HasLinePrefix(index: nat, line: string)
  {
    |LinePrefix(index)| <= |line| && line[..|LinePrefix(index)|] == LinePrefix(index)
  }

  datatype Option<T> = None | Some(value: T)

  /** Takes the `"<n> | "` prefix off every line, failing when a line lacks the
      prefix its position calls for. */
  function StripLineNumbers(text: string): Option<string>
  {
    var lines := Split(text, '\n');
    if forall i :: 0 <= i < |lines| ==> HasLinePrefix(i, lines[i]) then
      Some(Join(seq(|lines|, i requires 0 <= i < |lines| => lines[i][|LinePrefix(i)|..]), '\n'))
    else
      None
  }

  /** Removing the prefixes gives back the original text, empty files and
      trailing empty lines included. */
  lemma {:induction false} StripUndoesAddLineNumbers(code: string)
    ensures StripLineNumbers(AddLineNumbers(code, true)) == Some(code)
  {
    var lines := Split(code, '\n');
    var out := Split(AddLineNumbers(code, true), '\n');
    AddLineNumbersLines(code);
    forall i | 0 <= i < |out|
      ensures HasLinePrefix(i, out[i]) && out[i][|LinePrefix(i)|..] == lines[i]
    {
      assert out[i] == LinePrefix(i) + lines[i];
    }
    var stripped := seq(|out|, i requires 0 <= i < |out| => out[i][|LinePrefix(i)|..]);
    assert stripped == lines;
  }

  // ===========================================================================
  // formatTree

  /** One rendered line: whether each ancestor was last among its siblings
      (that picks its indent), whether the node is, and the node's name. */
  datatype Row = Row(ancestorsLast: seq<bool>, isLast: bool, name: string)

  function Indent(ancestorsLast: seq<bool>): string
  {
    if ancestorsLast == [] then "" else ChildIndent(ancestorsLast[0]) + Indent(ancestorsLast[1..])
  }

  function RowText(prefix: string, row: Row): string
  {
    prefix + Indent(row.ancestorsLast) + Connector(row.isLast) + row.name + "\n"
  }

  function Render(prefix: string, rows: seq<Row>): string
  {
    if rows == [] then "" else RowText(prefix, rows[0]) + Render(prefix, rows[1..])
  }

  /** Places the rows one level deeper, under a node whose lastness is `isLast`. */
  function Nest(isLast: bool, rows: seq<Row>): (r: seq<Row>)
    ensures |r| == |rows|
  {
    if rows == [] then []
    else [rows[0].(ancestorsLast := [isLast] + rows[0].ancestorsLast)] + Nest(isLast, rows[1..])
  }

  /** The nodes of a forest in pre-order, each with the flags that place it; a
      node is last exactly when no sibling follows it. */
  function Outline(tree: seq<TreeNode>): seq<Row>
    decreases tree
  {
    if tree == [] then []
    else
      var isLast := |tree| == 1;
      [Row([], isLast, tree[0].name)] + Nest(isLast, Outline(tree[0].children)) + Outline(tree[1..])
  }

  function NodeCount(tree: seq<TreeNode>): nat
    decreases tree
  {
    if tree == [] then 0 else 1 + NodeCount(tree[0].children) + NodeCount(tree[1..])
  }

  lemma {:induction false} RenderAppend(prefix: string, a: seq<Row>, b: seq<Row>)
    ensures Render(prefix, a + b) == Render(prefix, a) + Render(prefix, b)
  {
    if a == [] {
      assert a + b == b;
    } else {
      assert (a + b)[0] == a[0] && (a + b)[1..] == a[1..] + b;
      RenderAppend(prefix, a[1..], b);
    }
  }

  lemma RowTextNest(prefix: string, isLast: bool, row: Row)
    ensures RowText(prefix, row.(ancestorsLast := [isLast] + row.ancestorsLast))
            == RowText(prefix + ChildIndent(isLast), row)
  {
    assert ([isLast] + row.ancestorsLast)[1..] == row.ancestorsLast;
  }

  lemma {:induction false} RenderNest(prefix: string, isLast: bool, rows: seq<Row>)
    ensures Render(prefix, Nest(isLast, rows)) == Render(prefix + ChildIndent(isLast), rows)
  {
    if rows != [] {
      RenderNest(prefix, isLast, rows[1..]);
      RowTextNest(prefix, isLast, rows[0]);
      var nested := Nest(isLast, rows);
      assert nested[0] == rows[0].(ancestorsLast := [isLast] + rows[0].ancestorsLast);
      assert nested[1..] == Nest(isLast, rows[1..]);
    }
  }

  /** Rendering a non-empty forest is rendering its first node and then the rest. */
  lemma FormatTreeFirst(tree: seq<TreeNode>, prefix: string)
    requires tree != []
    ensures FormatTree(tree, prefix) == FormatNode(tree, 0, prefix) + FormatTree(tree[1..], prefix)
  {
    var all := seq(|tree|, i requires 0 <= i < |tree| => FormatNode(tree, i, prefix));
    var rest := seq(|tree[1..]|, i requires 0 <= i < |tree[1..]| => FormatNode(tree[1..], i, prefix));
    assert all[1..] == rest;
  }

  /** `formatTree` prints one line per node in pre-order: the prefix, one indent
      per ancestor ("    " under a last node, "│   " otherwise), "└── " for the last
      of its siblings and "├── " for every other, the name, and a newline. */
  lemma {:induction false} FormatTreeIsOutline(tree: seq<TreeNode>, prefix: string)
    ensures FormatTree(tree, prefix) == Render(prefix, Outline(tree))
    decreases tree
  {
    if tree != [] {
      var isLast := |tree| == 1;
      var first := Row([], isLast, tree[0].name);
      var nested := Nest(isLast, Outline(tree[0].children));
      var childPrefix := prefix + ChildIndent(isLast);
      calc {
        FormatTree(tree, prefix);
        { FormatTreeFirst(tree, prefix); }
        FormatNode(tree, 0, prefix) + FormatTree(tree[1..], prefix);
        { FormatNodeFirst(tree, prefix); }
        RowText(prefix, first) + FormatTree(tree[0].children, childPrefix) + FormatTree(tree[1..], prefix);
        { FormatTreeIsOutline(tree[0].children, childPrefix);
          RenderNest(prefix, isLast, Outline(tree[0].children));
          FormatTreeIsOutline(tree[1..], prefix); }
        RowText(prefix, first) + Render(prefix, nested) + Render(prefix, Outline(tree[1..]));
        { RenderAppend(prefix, [first], nested);
          assert Render(prefix, [first]) == RowText(prefix, first); }
        Render(prefix, [first] + nested) + Render(prefix, Outline(tree[1..]));
        { RenderAppend(prefix, [first] + nested, Outline(tree[1..])); }
        Render(prefix, [first] + nested + Outline(tree[1..]));
      }
    }
  }

  lemma FormatNodeFirst(tree: seq<TreeNode>, prefix: string)
    requires tree != []
    ensures FormatNode(tree, 0, prefix)
            == RowText(prefix, Row([], |tree| == 1, tree[0].name))
               + FormatTree(tree[0].children, prefix + ChildIndent(|tree| == 1))
  {
  }

  /** The outline has one row per node. */
  lemma {:induction false} OutlineSize(tree: seq<TreeNode>)
    ensures |Outline(tree)| == NodeCount(tree)
    decreases tree
  {
    if tree != [] {
      OutlineSize(tree[0].children);
      OutlineSize(tree[1..]);
    }
  }

  /** The rows of the siblings themselves (not their descendants). */
  function TopRows(rows: seq<Row>): seq<Row>
  {
    if rows == [] then []
    else (if rows[0].ancestorsLast == [] then [rows[0]] else []) + TopRows(rows[1..])
  }

  lemma {:induction false} TopRowsAppend(a: seq<Row>, b: seq<Row>)
    ensures TopRows(a + b) == TopRows(a) + TopRows(b)
  {
    if a == [] {
      assert a + b == b;
    } else {
      assert (a + b)[0] == a[0] && (a + b)[1..] == a[1..] + b;
      TopRowsAppend(a[1..], b);
    }
  }

  lemma {:induction false} TopRowsNest(isLast: bool, rows: seq<Row>)
    ensures TopRows(Nest(isLast, rows)) == []
  {
    if rows != [] {
      TopRowsNest(isLast, rows[1..]);
    }
  }

  /** Siblings are rendered in their order, and only the last one of them gets
      the corner connector. */
  lemma {:induction false} SiblingConnectors(tree: seq<TreeNode>)
    ensures TopRows(Outline(tree))
            == seq(|tree|, i requires 0 <= i < |tree| => Row([], i == |tree| - 1, tree[i].name))
    decreases tree
  {
    if tree != [] {
      var isLast := |tree| == 1;
      var nested := Nest(isLast, Outline(tree[0].children));
      SiblingConnectors(tree[1..]);
      TopRowsNest(isLast, Outline(tree[0].children));
      TopRowsAppend([Row([], isLast, tree[0].name)] + nested, Outline(tree[1..]));
      TopRowsAppend([Row([], isLast, tree[0].name)], nested);
    }
  }

  /** No node name holds a line break. */
  predicate NamesOnOneLine(tree: seq<TreeNode>)
    decreases tree
  {
    forall i :: 0 <= i < |tree| ==> '\n' !in tree[i].name && NamesOnOneLine(tree[i].children)
  }

  predicate RowNamesOnOneLine(rows: seq<Row>)
  {
    forall i :: 0 <= i < |rows| ==> '\n' !in rows[i].name
  }

  lemma {:induction false} OutlineNamesOnOneLine(tree: seq<TreeNode>)
    requires NamesOnOneLine(tree)
    ensures RowNamesOnOneLine(Outline(tree))
    decreases tree
  {
    if tree != [] {
      var isLast := |tree| == 1;
      assert NamesOnOneLine(tree[1..]) by {
        forall i | 0 <= i < |tree[1..]|
          ensures '\n' !in tree[1..][i].name && NamesOnOneLine(tree[1..][i].children)
        {
          assert tree[1..][i] == tree[i + 1];
        }
      }
      OutlineNamesOnOneLine(tree[0].children);
      OutlineNamesOnOneLine(tree[1..]);
      NestKeepsNames(isLast, Outline(tree[0].children));
    }
  }

  lemma {:induction false} NestKeepsNames(isLast: bool, rows: seq<Row>)
    ensures forall i :: 0 <= i < |rows| ==> Nest(isLast, rows)[i].name == rows[i].name
  {
    if rows != [] {
      NestKeepsNames(isLast, rows[1..]);
      forall i | 1 <= i < |rows|
        ensures Nest(isLast, rows)[i].name == rows[i].name
      {
        assert Nest(isLast, rows)[i] == Nest(isLast, rows[1..])[i - 1];
      }
    }
  }

  lemma IndentHasNoNewline(ancestorsLast: seq<bool>)
    ensures '\n' !in Indent(ancestorsLast)
  {
  }

  lemma {:induction false} RenderLineCount(prefix: string, rows: seq<Row>)
    requires '\n' !in prefix
    requires RowNamesOnOneLine(rows)
    ensures Count(Render(prefix, rows), '\n') == |rows|
  {
    if rows != [] {
      var row := rows[0];
      IndentHasNoNewline(row.ancestorsLast);
      var head := prefix + Indent(row.ancestorsLast) + Connector(row.isLast) + row.name;
      CountAbsent(head, '\n');
      CountAppend(head, "\n", '\n');
      RenderLineCount(prefix, rows[1..]);
      CountAppend(RowText(prefix, row), Render(prefix, rows[1..]), '\n');
    }
  }

  /** The tree text holds exactly one newline-terminated line per node, and the
      empty forest renders as the empty string. */
  lemma FormatTreeLineCount(tree: seq<TreeNode>, prefix: string)
    requires '\n' !in prefix
    requires NamesOnOneLine(tree)
    ensures Count(FormatTree(tree, prefix), '\n') == NodeCount(tree)
    ensures tree == [] ==> FormatTree(tree, prefix) == ""
  {
    FormatTreeIsOutline(tree, prefix);
    OutlineSize(tree);
    OutlineNamesOnOneLine(tree);
    RenderLineCount(prefix, Outline(tree));
  }
}
