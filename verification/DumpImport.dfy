/** Splitting the VALUES part of a SQL dump into rows of raw fields. */
module DumpImport {
  import opened Text

  const QUOTE := '\''
  const BACKSLASH := '\\'

  type Row = seq<string>

  datatype State = State(row: Row, field: string, quoted: bool, escaped: bool, depth: int, rows: seq<Row>)

  const START := State([], "", false, false, 0, [])

  function StepQuoted(s: State, c: char): State {
    if s.escaped then s.(field := s.field + [c], escaped := false)
    else if c == BACKSLASH then s.(escaped := true)
    else if c == QUOTE then s.(quoted := false)
    else s.(field := s.field + [c])
  }

  function StepPlain(s: State, c: char): State {
    if c == QUOTE then s.(quoted := true)
    else if c == '(' then
      if s.depth == 0 then s.(depth := 1, row := [], field := "") else s.(depth := s.depth + 1)
    else if c == ')' then
      if s.depth == 1 then State([], "", false, s.escaped, 0, s.rows + [s.row + [Strip(s.field)]])
      else s.(depth := s.depth - 1)
    else if c == ',' && s.depth == 1 then s.(row := s.row + [Strip(s.field)], field := "")
    else if s.depth == 1 then s.(field := s.field + [c])
    else s
  }

  function Step(s: State, c: char): State {
    if s.quoted then StepQuoted(s, c) else StepPlain(s, c)
  }

  function Scan(s: State, text: string): State
    decreases |text|
  {
    if text == "" then s else Scan(Step(s, text[0]), text[1..])
  }

  function Split(block: string): seq<Row> {
    Scan(START, block).rows
  }

  /** The character loop. */
  method SplitValues(block: string) returns (rows: seq<Row>)
    ensures rows == Split(block)
  {
    hide Strip;
    rows := [];
    var row: Row, field := [], "";
    var quoted, escaped, depth := false, false, 0;
    for i := 0 to |block|
      invariant Scan(START, block) == Scan(State(row, field, quoted, escaped, depth, rows), block[i..])
    {
      var c := block[i];
      assert block[i..][1..] == block[i + 1..];
      if quoted {
        if escaped {
          field := field + [c];
          escaped := false;
        } else if c == BACKSLASH {
          escaped := true;
        } else if c == QUOTE {
          quoted := false;
        } else {
          field := field + [c];
        }
      } else if c == QUOTE {
        quoted := true;
      } else if c == '(' {
        depth := depth + 1;
        if depth == 1 {
          row, field := [], "";
        }
      } else if c == ')' {
        depth := depth - 1;
        if depth == 0 {
          row := row + [Strip(field)];
          rows := rows + [row];
          row, field := [], "";
        }
      } else if c == ',' && depth == 1 {
        row := row + [Strip(field)];
        field := "";
      } else if depth == 1 {
        field := field + [c];
      }
    }
  }

  lemma {:induction false} ScanConcat(s: State, a: string, b: string)
    ensures Scan(s, a + b) == Scan(Scan(s, a), b)
    decreases |a|
  {
    if a == "" {
      assert a + b == b;
    } else {
      assert (a + b)[0] == a[0] && (a + b)[1..] == a[1..] + b;
      ScanConcat(Step(s, a[0]), a[1..], b);
    }
  }

  lemma ScanOne(s: State, c: char)
    ensures Scan(s, [c]) == Step(s, c)
  {
    assert [c][1..] == "";
    assert Scan(Step(s, c), "") == Step(s, c);
  }

  // -------------------------------------------------------------- complete groups

  /** Between groups: outside every quote and parenthesis. */
  predicate Between(s: State) {
    !s.quoted && !s.escaped && s.depth == 0
  }

  predicate Complete(block: string) {
    Between(Scan(START, block))
  }

  /** Two states with the same future: a half-read row matters only inside a group. */
  predicate SameFuture(s: State, t: State) {
    s.quoted == t.quoted && s.escaped == t.escaped && s.depth == t.depth
    && (s.depth >= 1 ==> s.row == t.row && s.field == t.field)
  }

  lemma {:induction false} FutureIsShared(s: State, t: State, done: seq<Row>, text: string)
    requires SameFuture(s, t) && s.rows == done + t.rows
    ensures SameFuture(Scan(s, text), Scan(t, text)) && Scan(s, text).rows == done + Scan(t, text).rows
    decreases |text|
  {
    hide Strip;
    if text != "" {
      StepShares(s, t, done, text[0]);
      FutureIsShared(Step(s, text[0]), Step(t, text[0]), done, text[1..]);
    }
  }

  lemma StepShares(s: State, t: State, done: seq<Row>, c: char)
    requires SameFuture(s, t) && s.rows == done + t.rows
    ensures SameFuture(Step(s, c), Step(t, c)) && Step(s, c).rows == done + Step(t, c).rows
  {
    hide Strip;
    var last := t.row + [Strip(t.field)];
    assert (done + t.rows) + [last] == done + (t.rows + [last]);
  }

  lemma {:induction false} EscapeOnlyInQuotes(s: State, text: string)
    requires s.escaped ==> s.quoted
    ensures Scan(s, text).escaped ==> Scan(s, text).quoted
    decreases |text|
  {
    hide Strip;
    if text != "" {
      EscapeOnlyInQuotes(Step(s, text[0]), text[1..]);
    }
  }

  /** Anywhere else than between groups, a whole group adds no row. */
  lemma InsideNothingIsYielded(s: State)
    requires !Between(s) && (s.escaped ==> s.quoted)
    ensures Scan(s, "(x)").rows == s.rows
  {
    hide Strip;
    var s1 := Step(s, '(');
    var s2 := Step(s1, 'x');
    var s3 := Step(s2, ')');
    assert s3.rows == s.rows;
    assert "(x)"[1..] == "x)" && "x)"[1..] == ")" && ")"[1..] == "";
    assert Scan(s, "(x)") == Scan(s1, "x)") == Scan(s2, ")") == Scan(s3, "") == s3;
  }

  lemma OneGroup()
    ensures Split("(x)") == [["x"]]
  {
    hide Scan, Strip;
    var c := Cell("x", false, "", "");
    assert !IsSpace('x');
    assert PrintCell(c) == "x" && PrintRow([c]) == "(x)";
    assert GoodCell(c);
    RowReadsBack([c]);
    assert Texts([c]) == ["x"];
  }

  /** Splitting distributes over whatever follows exactly when the first part ends between groups. */
  lemma SplitDistributesExactly(a: string)
    ensures (forall b :: Split(a + b) == Split(a) + Split(b)) <==> Complete(a)
  {
    var s := Scan(START, a);
    if Complete(a) {
      forall b ensures Split(a + b) == Split(a) + Split(b) {
        ScanConcat(START, a, b);
        FutureIsShared(s, START, s.rows, b);
      }
    } else {
      EscapeOnlyInQuotes(START, a);
      InsideNothingIsYielded(s);
      ScanConcat(START, a, "(x)");
      OneGroup();
      assert |Split(a + "(x)")| == |Split(a)|;
      assert |Split(a) + Split("(x)")| == |Split(a)| + 1;
    }
  }

  // -------------------------------------------------------------- the printer

  /** A field as a dump writes it: quoted with escapes or bare, with white space around it. */
  datatype Cell = Cell(text: string, quoted: bool, left: string, right: string)

  function Escape(text: string): string {
    if text == "" then ""
    else (if text[0] == QUOTE || text[0] == BACKSLASH then [BACKSLASH, text[0]] else [text[0]]) + Escape(text[1..])
  }

  /** No character that means anything to the splitter. */
  predicate Inert(s: string) {
    forall i :: 0 <= i < |s| ==> s[i] != QUOTE && s[i] != '(' && s[i] != ')'
  }

  predicate NoComma(s: string) {
    forall i :: 0 <= i < |s| ==> s[i] != ','
  }

  predicate GoodCell(c: Cell) {
    && NoOuterSpace(c.text) && Blank(c.left) && Blank(c.right)
    && (!c.quoted ==> Inert(c.text) && NoComma(c.text))
  }

  function PrintCell(c: Cell): string {
    c.left + (if c.quoted then [QUOTE] + Escape(c.text) + [QUOTE] else c.text) + c.right
  }

  function PrintCells(cells: seq<Cell>): string
    requires cells != []
  {
    if |cells| == 1 then PrintCell(cells[0]) else PrintCell(cells[0]) + "," + PrintCells(cells[1..])
  }

  function PrintRow(cells: seq<Cell>): string
    requires cells != []
  {
    "(" + PrintCells(cells) + ")"
  }

  /** Rows, each followed by some separator without quotes or parentheses. */
  function PrintRows(rows: seq<seq<Cell>>, gaps: seq<string>): string
    requires |gaps| == |rows| && (forall i :: 0 <= i < |rows| ==> rows[i] != [])
  {
    if rows == [] then "" else PrintRow(rows[0]) + gaps[0] + PrintRows(rows[1..], gaps[1..])
  }

  function Texts(cells: seq<Cell>): (r: Row)
    ensures |r| == |cells|
  {
    seq(|cells|, i requires 0 <= i < |cells| => cells[i].text)
  }

  // -------------------------------------------------------------- the round trip

  lemma {:induction false} QuotedBodyReadsBack(s: State, text: string)
    requires s.quoted && !s.escaped
    ensures Scan(s, Escape(text)) == s.(field := s.field + text)
    decreases |text|
  {
    if text == "" {
      assert s.field + text == s.field;
    } else {
      var c, rest := text[0], text[1..];
      var next := s.(field := s.field + [c]);
      var head := if c == QUOTE || c == BACKSLASH then [BACKSLASH, c] else [c];
      assert Scan(s, head) == next by {
        if c == QUOTE || c == BACKSLASH {
          assert [BACKSLASH, c][1..] == [c];
          ScanOne(Step(s, BACKSLASH), c);
        } else {
          ScanOne(s, c);
        }
      }
      ScanConcat(s, head, Escape(rest));
      QuotedBodyReadsBack(next, rest);
      assert (s.field + [c]) + rest == s.field + text;
    }
  }

  lemma {:induction false} BareTextReadsBack(s: State, text: string)
    requires !s.quoted && s.depth == 1 && Inert(text) && NoComma(text)
    ensures Scan(s, text) == s.(field := s.field + text)
    decreases |text|
  {
    hide Strip;
    if text == "" {
      assert s.field + text == s.field;
    } else {
      BareTextReadsBack(s.(field := s.field + [text[0]]), text[1..]);
      assert (s.field + [text[0]]) + text[1..] == s.field + text;
    }
  }

  lemma BlankIsInert(s: string)
    requires Blank(s)
    ensures Inert(s) && NoComma(s)
  {
  }

  lemma CellReadsBack(s: State, c: Cell)
    requires !s.quoted && !s.escaped && s.depth == 1 && s.field == "" && GoodCell(c)
    ensures Scan(s, PrintCell(c)) == s.(field := c.left + c.text + c.right)
  {
    hide Scan, Escape, Step, Strip, Blank, Inert, NoComma;
    var body := if c.quoted then [QUOTE] + Escape(c.text) + [QUOTE] else c.text;
    var s1 := s.(field := c.left);
    var s2 := s.(field := c.left + c.text);
    BlankIsInert(c.left);
    BlankIsInert(c.right);
    BareTextReadsBack(s, c.left);
    assert s.field + c.left == c.left;
    ScanConcat(s, c.left, body);
    BodyReadsBack(s1, c);
    BareTextReadsBack(s2, c.right);
    ScanConcat(s, c.left + body, c.right);
  }

  lemma BodyReadsBack(s: State, c: Cell)
    requires !s.quoted && !s.escaped && s.depth == 1 && (!c.quoted ==> Inert(c.text) && NoComma(c.text))
    ensures Scan(s, if c.quoted then [QUOTE] + Escape(c.text) + [QUOTE] else c.text) == s.(field := s.field + c.text)
  {
    hide Scan, Escape, Strip, Inert, NoComma;
    if c.quoted {
      var inside := s.(quoted := true);
      var full := inside.(field := s.field + c.text);
      ScanOne(s, QUOTE);
      QuotedBodyReadsBack(inside, c.text);
      ScanConcat(s, [QUOTE], Escape(c.text));
      ScanOne(full, QUOTE);
      ScanConcat(s, [QUOTE] + Escape(c.text), [QUOTE]);
    } else {
      BareTextReadsBack(s, c.text);
    }
  }

  lemma StripsPadding(c: Cell)
    requires GoodCell(c)
    ensures Strip(c.left + c.text + c.right) == c.text
  {
    hide IsSpace;
    if c.text == "" {
      assert c.left + c.text + c.right == (c.left + c.right) + "";
      assert Blank(c.left + c.right);
      TrimsLeft(c.left + c.right, "");
      TrimsRight("", "");
    } else {
      assert c.left + c.text + c.right == c.left + (c.text + c.right);
      assert (c.text + c.right)[0] == c.text[0];
      TrimsLeft(c.left, c.text + c.right);
      TrimsRight(c.text, c.right);
    }
  }

  lemma {:induction false} CellsReadBack(s: State, cells: seq<Cell>)
    requires !s.quoted && !s.escaped && s.depth == 1 && s.field == "" && cells != []
    requires forall i :: 0 <= i < |cells| ==> GoodCell(cells[i])
    ensures Scan(s, PrintCells(cells) + ")") == State([], "", false, false, 0, s.rows + [s.row + Texts(cells)])
    decreases |cells|
  {
    hide Scan, Strip, GoodCell, PrintCell;
    var c := cells[0];
    var padded := s.(field := c.left + c.text + c.right);
    CellReadsBack(s, c);
    StripsPadding(c);
    if |cells| == 1 {
      ScanConcat(s, PrintCell(c), ")");
      ScanOne(padded, ')');
      assert Texts(cells) == [c.text];
    } else {
      var rest := PrintCells(cells[1..]) + ")";
      var next := s.(row := s.row + [c.text]);
      assert PrintCells(cells) + ")" == (PrintCell(c) + ",") + rest;
      ScanConcat(s, PrintCell(c), ",");
      ScanOne(padded, ',');
      ScanConcat(s, PrintCell(c) + ",", rest);
      CellsReadBack(next, cells[1..]);
      assert (s.row + [c.text]) + Texts(cells[1..]) == s.row + Texts(cells);
    }
  }

  lemma RowReadsBack(cells: seq<Cell>)
    requires cells != [] && (forall i :: 0 <= i < |cells| ==> GoodCell(cells[i]))
    ensures Scan(START, PrintRow(cells)) == State([], "", false, false, 0, [Texts(cells)])
  {
    hide Scan, GoodCell, PrintCells;
    var open := START.(depth := 1);
    ScanOne(START, '(');
    assert PrintRow(cells) == "(" + (PrintCells(cells) + ")");
    ScanConcat(START, "(", PrintCells(cells) + ")");
    CellsReadBack(open, cells);
    assert open.row + Texts(cells) == Texts(cells);
    assert open.rows + [Texts(cells)] == [Texts(cells)];
  }

  lemma {:induction false} GapsAreSkipped(s: State, gap: string)
    requires Between(s) && Inert(gap)
    ensures Scan(s, gap) == s
    decreases |gap|
  {
    hide Strip;
    if gap != "" {
      GapsAreSkipped(s, gap[1..]);
    }
  }

  /** The splitter undoes the printer: whatever commas, parentheses, quotes and backslashes the fields contain,
    * however they are padded and whatever separates the rows. */
  lemma {:induction false} SplitUndoesPrint(rows: seq<seq<Cell>>, gaps: seq<string>)
    requires |gaps| == |rows| && (forall i :: 0 <= i < |rows| ==> rows[i] != [])
    requires forall i, j :: 0 <= i < |rows| && 0 <= j < |rows[i]| ==> GoodCell(rows[i][j])
    requires forall i :: 0 <= i < |rows| ==> Inert(gaps[i])
    ensures Split(PrintRows(rows, gaps)) == seq(|rows|, i requires 0 <= i < |rows| => Texts(rows[i]))
    decreases |rows|
  {
    hide Scan, GoodCell, PrintRow, Texts, Inert;
    if rows == [] {
      assert Scan(START, "") == START by {
        ScanNothing();
      }
    } else {
      var first, rest := PrintRow(rows[0]) + gaps[0], PrintRows(rows[1..], gaps[1..]);
      RowReadsBack(rows[0]);
      ScanConcat(START, PrintRow(rows[0]), gaps[0]);
      GapsAreSkipped(Scan(START, PrintRow(rows[0])), gaps[0]);
      SplitDistributesExactly(first);
      assert Split(first + rest) == Split(first) + Split(rest);
      SplitUndoesPrint(rows[1..], gaps[1..]);
      assert PrintRows(rows, gaps) == first + rest;
    }
  }

  lemma ScanNothing()
    ensures Scan(START, "") == START
  {
  }
}
