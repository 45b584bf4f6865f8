/**
  `formatCode`: the brace-driven re-indenter. Each component of the text is
  trimmed of spaces and tabs and re-emitted behind `tabString` repeated to the
  current depth. A trimmed line holding `}` lowers the depth (not below 0)
  before it is emitted; one holding `{` raises it by one after. The emitted
  lines are joined with LF.
 */
module Format {
  import opened Text

  /** The trimmed line holds a closing brace. */
  predicate Closes(trimmed: String) {
    '}' in trimmed
  }

  /** The trimmed line holds an opening brace. */
  predicate Opens(trimmed: String) {
    '{' in trimmed
  }

  /** The depth a trimmed line is emitted at when the depth before it is `depth`. */
  function EmitDepth(trimmed: String, depth: nat): (d: nat)
    ensures Closes(trimmed) ==> d == (if depth == 0 then 0 else depth - 1)
    ensures !Closes(trimmed) ==> d == depth
  {
    if Closes(trimmed) && depth > 0 then depth - 1 else depth
  }

  /** The depth after a trimmed line has been emitted. */
  function DepthAfter(trimmed: String, depth: nat): nat {
    EmitDepth(trimmed, depth) + (if Opens(trimmed) then 1 else 0)
  }

  /** Every line trimmed of spaces and tabs. */
  function TrimAll(lines: seq<String>): (trs: seq<String>)
    ensures |trs| == |lines| && forall k :: 0 <= k < |lines| ==> trs[k] == Trim(lines[k])
  {
    seq(|lines|, k requires 0 <= k < |lines| => Trim(lines[k]))
  }

  /** The depth at which each trimmed line is emitted, entering at `depth`. */
  function Levels(trs: seq<String>, depth: nat): (lv: seq<nat>)
    ensures |lv| == |trs|
    decreases |trs|
  {
    if |trs| == 0 then [] else [EmitDepth(trs[0], depth)] + Levels(trs[1..], DepthAfter(trs[0], depth))
  }

  /** The loop of `formatCode` over the trimmed lines, entered at depth `depth`. */
  function Emit(trs: seq<String>, tab: String, depth: nat): (out: seq<String>)
    ensures |out| == |trs|
    decreases |trs|
  {
    if |trs| == 0 then []
    else [Repeat(tab, EmitDepth(trs[0], depth)) + trs[0]] + Emit(trs[1..], tab, DepthAfter(trs[0], depth))
  }

  /** `formatCode` with a tab of `tabSize` spaces. */
  function Format(t: String, tabSize: nat): String {
    Join(Emit(TrimAll(Split(t)), Spaces(tabSize), 0), "\n")
  }

  /** The same, written as the loop of the app: `indent` carries the depth from
      one line to the next. */
  method FormatLoop(t: String, tabSize: nat) returns (r: String)
    ensures r == Format(t, tabSize)
  {
    var lines := Split(t);
    var formatted: seq<String> := [];
    var indent: nat := 0;
    var tab := Spaces(tabSize);
    ghost var trs := TrimAll(lines);
    assert trs[0..] == trs;
    for i := 0 to |lines|
      invariant formatted + Emit(trs[i..], tab, indent) == Emit(trs, tab, 0)
    {
      var trimmed := Trim(lines[i]);
      ghost var before, entry := formatted, indent;
      if '}' in trimmed {
        indent := if indent == 0 then 0 else indent - 1;
      }
      ghost var emitted := indent;
      formatted := formatted + [Repeat(tab, indent) + trimmed];
      if '{' in trimmed {
        indent := indent + 1;
      }
      DepthStep(trimmed, entry, emitted, indent);
      LoopStep(trs, i, tab, entry, before);
    }
    assert trs[|lines|..] == [] && Emit([], tab, indent) == [];
    assert formatted == Emit(trs, tab, 0);
    r := Join(formatted, "\n");
  }

  /** The two brace tests of the loop body compute `EmitDepth` and `DepthAfter`. */
  lemma DepthStep(trimmed: String, entry: nat, emitted: nat, after: nat)
    requires emitted == (if '}' in trimmed then (if entry == 0 then 0 else entry - 1) else entry)
    requires after == (if '{' in trimmed then emitted + 1 else emitted)
    ensures emitted == EmitDepth(trimmed, entry) && after == DepthAfter(trimmed, entry)
  {
  }

  /** One pass of the loop body keeps the loop invariant. */
  lemma LoopStep(trs: seq<String>, i: nat, tab: String, entry: nat, before: seq<String>)
    requires i < |trs|
    ensures before + Emit(trs[i..], tab, entry) ==
      (before + [Repeat(tab, EmitDepth(trs[i], entry)) + trs[i]]) + Emit(trs[i + 1..], tab, DepthAfter(trs[i], entry))
  {
    assert trs[i..][0] == trs[i] && trs[i..][1..] == trs[i + 1..];
    EmitCons(trs[i..], tab, entry);
  }

  lemma EmitCons(trs: seq<String>, tab: String, depth: nat)
    requires |trs| > 0
    ensures Emit(trs, tab, depth) ==
      [Repeat(tab, EmitDepth(trs[0], depth)) + trs[0]] + Emit(trs[1..], tab, DepthAfter(trs[0], depth))
  {
  }

  /** Line `k` of the output is the tab repeated to that line's depth, followed by
      the trimmed line. */
  lemma {:induction false} EmitAt(trs: seq<String>, tab: String, depth: nat, k: nat)
    requires k < |trs|
    ensures Emit(trs, tab, depth)[k] == Repeat(tab, Levels(trs, depth)[k]) + trs[k]
    decreases k
  {
    if k > 0 {
      var d := DepthAfter(trs[0], depth);
      EmitAt(trs[1..], tab, d, k - 1);
      assert Emit(trs, tab, depth)[k] == Emit(trs[1..], tab, d)[k - 1];
      assert Levels(trs, depth)[k] == Levels(trs[1..], d)[k - 1];
    }
  }

  /** Line `k > 0` is emitted at the previous line's depth, raised by one if
      that line opened a brace and then lowered by one (not below 0) if this
      line closes one. */
  lemma {:induction false} LevelsAt(trs: seq<String>, depth: nat, k: nat)
    requires 0 < k < |trs|
    ensures Levels(trs, depth)[k] ==
      EmitDepth(trs[k], Levels(trs, depth)[k - 1] + (if Opens(trs[k - 1]) then 1 else 0))
    decreases k
  {
    var d := DepthAfter(trs[0], depth);
    var lv, rest := Levels(trs, depth), Levels(trs[1..], d);
    assert lv == [EmitDepth(trs[0], depth)] + rest;
    assert trs[k] == trs[1..][k - 1];
    if k > 1 {
      LevelsAt(trs[1..], d, k - 1);
      assert trs[k - 1] == trs[1..][k - 2];
    } else {
      assert rest[0] == EmitDepth(trs[1..][0], d);
    }
  }

  /** Line `k > 0` of `trs` is emitted at depth `lv[k]` as `LevelsAt` says, so
      it differs from the previous line's depth by at most one, is higher only
      after a line that opens a brace and lower only at a line that closes one. */
  predicate DepthMoves(trs: seq<String>, lv: seq<nat>, k: nat)
    requires 0 < k < |trs| == |lv|
  {
    && lv[k] == EmitDepth(trs[k], lv[k - 1] + (if Opens(trs[k - 1]) then 1 else 0))
    && lv[k - 1] <= lv[k] + 1 && lv[k] <= lv[k - 1] + 1
    && (lv[k] > lv[k - 1] ==> Opens(trs[k - 1]))
    && (lv[k] < lv[k - 1] ==> Closes(trs[k]))
  }

  /** How the depth moves from line to line: the first line is emitted at the
      entry depth, lowered by one when it closes a brace; each later line as
      `DepthMoves` says. */
  lemma LevelsStep(trs: seq<String>, depth: nat)
    ensures |trs| > 0 ==> Levels(trs, depth)[0] == EmitDepth(trs[0], depth)
    ensures forall k :: 0 < k < |trs| ==> DepthMoves(trs, Levels(trs, depth), k)
  {
    var lv := Levels(trs, depth);
    forall k | 0 < k < |trs|
      ensures DepthMoves(trs, lv, k)
    {
      LevelsAt(trs, depth, k);
      DepthMove(lv[k - 1], Opens(trs[k - 1]), trs[k], lv[k]);
    }
  }

  /** The depth moves by at most one, up only after an opening line and down
      only at a closing line. */
  lemma DepthMove(before: nat, opening: bool, trimmed: String, d: nat)
    requires d == EmitDepth(trimmed, before + (if opening then 1 else 0))
    ensures before <= d + 1 && d <= before + 1
    ensures d > before ==> opening
    ensures d < before ==> Closes(trimmed)
  {
  }

  /** An emitted line holds no newline, and trimming it gives back the trimmed line. */
  lemma EmittedLine(tabSize: nat, level: nat, line: String)
    requires NewlineFree(line)
    ensures NewlineFree(Repeat(Spaces(tabSize), level) + Trim(line))
    ensures Trim(Repeat(Spaces(tabSize), level) + Trim(line)) == Trim(line)
  {
    var pad := Repeat(Spaces(tabSize), level);
    assert forall k :: 0 <= k < |pad| ==> pad[k] == ' ';
    TrimIsNewlineFree(line);
    TrimAfterPadding(pad, Trim(line));
  }

  /** The output of `formatCode` splits back into exactly the emitted lines: as
      many lines as the input has components, each the indent for its depth
      followed by the trimmed component. */
  lemma FormatLines(t: String, tabSize: nat)
    ensures |Split(Format(t, tabSize))| == |Split(t)|
    ensures forall k :: 0 <= k < |Split(t)| ==>
      Split(Format(t, tabSize))[k] ==
        Repeat(Spaces(tabSize), Levels(TrimAll(Split(t)), 0)[k]) + Trim(Split(t)[k])
    ensures TrimAll(Split(Format(t, tabSize))) == TrimAll(Split(t))
  {
    var ls := Split(t);
    var trs := TrimAll(ls);
    var out := Emit(trs, Spaces(tabSize), 0);
    forall k | 0 <= k < |out|
      ensures out[k] == Repeat(Spaces(tabSize), Levels(trs, 0)[k]) + Trim(ls[k])
      ensures NewlineFree(out[k]) && Trim(out[k]) == trs[k]
    {
      EmitAt(trs, Spaces(tabSize), 0, k);
      EmittedLine(tabSize, Levels(trs, 0)[k], ls[k]);
    }
    SplitJoin(out);
  }

  /** `formatCode` is idempotent: formatting its own output changes nothing. */
  lemma FormatIdempotent(t: String, tabSize: nat)
    ensures Format(Format(t, tabSize), tabSize) == Format(t, tabSize)
  {
    FormatLines(t, tabSize);
  }

  lemma ExampleJoin(ls: seq<String>)
    requires |ls| == 3
    ensures Join(ls, "\n") == ls[0] + "\n" + ls[1] + "\n" + ls[2]
  {
    assert ls[1..][1..] == ls[2..] == [ls[2]];
    assert Join(ls[2..], "\n") == ls[2];
    assert Join(ls[1..], "\n") == ls[1] + "\n" + ls[2];
  }

  lemma ExampleNewlineFree(ls: seq<String>)
    requires ls == ["func f() {", "print(1)", "}"]
    ensures forall k :: 0 <= k < |ls| ==> NewlineFree(ls[k])
  {
    assert NewlineFree(ls[0]);
    assert NewlineFree(ls[1]);
    assert NewlineFree(ls[2]);
  }

  lemma ExampleTrimmed(ls: seq<String>)
    requires ls == ["func f() {", "print(1)", "}"]
    ensures TrimAll(ls) == ls
  {
    AlreadyTrimmed(ls[0]);
    AlreadyTrimmed(ls[1]);
    AlreadyTrimmed(ls[2]);
  }

  /** A line with no space or tab at either end is its own trim. */
  lemma AlreadyTrimmed(u: String)
    requires |u| > 0 ==> !IsWhitespace(u[0]) && !IsWhitespace(u[|u| - 1])
    ensures Trim(u) == u
  {
    TrimAfterPadding([], u);
    assert [] + u == u;
  }

  lemma ExampleBraces(ls: seq<String>)
    requires ls == ["func f() {", "print(1)", "}"]
    ensures Opens(ls[0]) && !Closes(ls[0])
    ensures !Opens(ls[1]) && !Closes(ls[1])
    ensures !Opens(ls[2]) && Closes(ls[2])
  {
    assert ls[0][9] == '{' && ls[2][0] == '}';
  }

  /** Three newline-free lines joined by LF split back into those lines. */
  lemma SplitThree(a: String, b: String, c: String)
    requires NewlineFree(a) && NewlineFree(b) && NewlineFree(c)
    ensures Split(a + "\n" + b + "\n" + c) == [a, b, c]
  {
    var ls := [a, b, c];
    ExampleJoin(ls);
    SplitJoin(ls);
  }

  /** The lines of the example below, already trimmed. */
  lemma ExampleLines(t: String, ls: seq<String>)
    requires t == "func f() {\nprint(1)\n}" && ls == ["func f() {", "print(1)", "}"]
    ensures Split(t) == ls
    ensures TrimAll(ls) == ls
  {
    ExampleNewlineFree(ls);
    assert t == ls[0] + "\n" + ls[1] + "\n" + ls[2];
    SplitThree(ls[0], ls[1], ls[2]);
    assert [ls[0], ls[1], ls[2]] == ls;
    ExampleTrimmed(ls);
  }

  /** A line that opens a block, one plain line and a line that closes it: the
      middle line is indented by one tab, the other two not at all. */
  lemma EmitBlock(a: String, b: String, c: String, tab: String)
    requires Opens(a) && !Closes(a) && !Opens(b) && !Closes(b) && !Opens(c) && Closes(c)
    ensures Emit([a, b, c], tab, 0) == [a, tab + b, c]
  {
    var ls := [a, b, c];
    assert ls[1..] == [b, c] && ls[1..][1..] == [c] && [c][1..] == [];
    assert Repeat(tab, 0) == [] && Repeat(tab, 1) == tab;
    assert EmitDepth(a, 0) == 0 && DepthAfter(a, 0) == 1;
    assert EmitDepth(b, 1) == 1 && DepthAfter(b, 1) == 1;
    assert EmitDepth(c, 1) == 0;
    EmitCons([c], tab, 1);
    assert Emit([c], tab, 1) == [[] + c] + Emit([], tab, 0);
    assert [] + c == c;
    EmitCons([b, c], tab, 1);
    assert Emit([b, c], tab, 1) == [tab + b] + [c];
    EmitCons(ls, tab, 0);
    assert [] + a == a;
  }

  lemma IndentedLine(tab: String, b: String, r: String)
    requires tab == Spaces(4) && b == "print(1)" && r == "    print(1)"
    ensures tab + b == r
  {
    assert |tab + b| == |r|;
    forall k | 0 <= k < |r| ensures (tab + b)[k] == r[k] {
      if k < 4 { assert r[k] == ' '; } else { assert (tab + b)[k] == b[k - 4]; }
    }
  }

  /** The example's lines, emitted at a tab of four spaces. */
  lemma ExampleEmit(ls: seq<String>, out: seq<String>)
    requires ls == ["func f() {", "print(1)", "}"] && out == ["func f() {", "    print(1)", "}"]
    ensures Emit(ls, Spaces(4), 0) == out
  {
    ExampleBraces(ls);
    var tab := Spaces(4);
    EmitBlock(ls[0], ls[1], ls[2], tab);
    assert [ls[0], ls[1], ls[2]] == ls;
    IndentedLine(tab, ls[1], out[1]);
  }

  /** The example's emitted lines, joined. */
  lemma ExampleText(out: seq<String>, r: String)
    requires out == ["func f() {", "    print(1)", "}"] && r == "func f() {\n    print(1)\n}"
    ensures Join(out, "\n") == r
  {
    ExampleJoin(out);
  }

  /** The example of a one-statement function body, at a tab size of 4. */
  lemma FormatFunctionBody(t: String, ls: seq<String>, out: seq<String>)
    requires t == "func f() {\nprint(1)\n}"
    requires ls == ["func f() {", "print(1)", "}"] && out == ["func f() {", "    print(1)", "}"]
    ensures Format(t, 4) == "func f() {\n    print(1)\n}"
  {
    ExampleLines(t, ls);
    ExampleEmit(ls, out);
    ExampleText(out, "func f() {\n    print(1)\n}");
  }
}
