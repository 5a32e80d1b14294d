/**
 * `format_transactions` of bot.py: one line of text per row, joined by newlines, or a
 * fixed message for no rows. The calendar rendering of the date (`strftime("%d/%m %H:%M")`)
 * and the two-decimal rendering of the amount (`:.2f`) are parameters.
 */
module Format {
  import opened PyText
  import opened Rows

  const NoTransactions: string := "Nenhuma transação encontrada."
  const IncomeLabel: string := "\U{1F4C8} Receita"
  const ExpenseLabel: string := "\U{1F4C9} Gasto"

  /** The label of a row: income only for the type `'receita'`, expense for any other. */
  function KindLabel(kind: string): (tag: string)
    ensures tag == IncomeLabel <==> kind == IncomeType
    ensures tag == ExpenseLabel <==> kind != IncomeType
  {
    assert IncomeLabel[0] != ExpenseLabel[0];
    if kind == IncomeType then IncomeLabel else ExpenseLabel
  }

  /** `f"{tx_id}. {date_fmt} — {tipo}: R${amount:.2f} — {desc}"` */
  function FormatLine(t: Transaction, showDate: Date -> string, showMoney: real -> string): string {
    IntToString(t.id) + ". " + showDate(t.date) + " — " + KindLabel(t.kind)
      + ": R$" + showMoney(t.amount) + " — " + t.description
  }

  /** A row's line opens with the row's id, as `/apagar` wants it, and closes with its description. */
  lemma LineShape(t: Transaction, showDate: Date -> string, showMoney: real -> string)
    ensures var line := FormatLine(t, showDate, showMoney);
      && |line| >= |IntToString(t.id)| + 2 + |t.description|
      && line[..|IntToString(t.id)| + 2] == IntToString(t.id) + ". "
      && line[|line| - |t.description|..] == t.description
  {
  }

  /** The line of each row, in the rows' order. */
  function FormatLines(rows: seq<Transaction>, showDate: Date -> string, showMoney: real -> string): (lines: seq<string>)
    ensures |lines| == |rows|
    ensures forall i :: 0 <= i < |rows| ==> lines[i] == FormatLine(rows[i], showDate, showMoney)
  {
    if rows == [] then [] else [FormatLine(rows[0], showDate, showMoney)] + FormatLines(rows[1..], showDate, showMoney)
  }

  /** Python's `"\n".join(lines)`. */
  function JoinLines(lines: seq<string>): string {
    if lines == [] then ""
    else if |lines| == 1 then lines[0]
    else lines[0] + "\n" + JoinLines(lines[1..])
  }

  /** Python's `s.split("\n")`: the pieces between newlines, one more than there are newlines. */
  function SplitLines(s: string): (pieces: seq<string>)
    ensures |pieces| >= 1
  {
    if s == [] then [""]
    else
      var rest := SplitLines(s[1..]);
      if s[0] == '\n' then [""] + rest else [[s[0]] + rest[0]] + rest[1..]
  }

  /** `format_transactions(rows)` */
  method FormatTransactions(rows: seq<Transaction>, showDate: Date -> string, showMoney: real -> string)
    returns (text: string)
    ensures rows == [] ==> text == NoTransactions
    ensures rows != [] ==> text == JoinLines(FormatLines(rows, showDate, showMoney))
  {
    if rows == [] {
      return NoTransactions;
    }
    var lines: seq<string> := [];
    for i := 0 to |rows|
      invariant |lines| == i
      invariant forall k :: 0 <= k < i ==> lines[k] == FormatLine(rows[k], showDate, showMoney)
    {
      lines := lines + [FormatLine(rows[i], showDate, showMoney)];
    }
    assert lines == FormatLines(rows, showDate, showMoney);
    text := JoinLines(lines);
  }

  lemma {:induction false} SplitLinesPlain(a: string)
    requires '\n' !in a
    ensures SplitLines(a) == [a]
  {
    if a != [] {
      SplitLinesPlain(a[1..]);
      assert [a[0]] + a[1..] == a;
    }
  }

  lemma {:induction false} SplitLinesAt(a: string, b: string)
    requires '\n' !in a
    ensures SplitLines(a + "\n" + b) == [a] + SplitLines(b)
  {
    if a == [] {
      assert a + "\n" + b == "\n" + b;
      assert ("\n" + b)[1..] == b;
    } else {
      assert (a + "\n" + b)[1..] == a[1..] + "\n" + b;
      SplitLinesAt(a[1..], b);
      assert [a[0]] + a[1..] == a;
    }
  }

  /** Splitting the joined text at its newlines gives back the lines, when no line holds a newline. */
  lemma {:induction false} SplitJoinLines(lines: seq<string>)
    requires lines != []
    requires forall i :: 0 <= i < |lines| ==> '\n' !in lines[i]
    ensures SplitLines(JoinLines(lines)) == lines
  {
    if |lines| == 1 {
      SplitLinesPlain(lines[0]);
    } else {
      SplitLinesAt(lines[0], JoinLines(lines[1..]));
      SplitJoinLines(lines[1..]);
    }
  }

  /**
   * The text for a non-empty list has exactly one line per row, the row's own line, in the
   * rows' order, as long as no description and no rendered date or amount holds a newline.
   */
  lemma OneLinePerRow(rows: seq<Transaction>, showDate: Date -> string, showMoney: real -> string)
    requires rows != []
    requires forall i :: 0 <= i < |rows| ==> '\n' !in rows[i].description
    requires forall d :: '\n' !in showDate(d)
    requires forall m :: '\n' !in showMoney(m)
    ensures var pieces := SplitLines(JoinLines(FormatLines(rows, showDate, showMoney)));
      && |pieces| == |rows|
      && forall i :: 0 <= i < |rows| ==> pieces[i] == FormatLine(rows[i], showDate, showMoney)
  {
    var lines := FormatLines(rows, showDate, showMoney);
    forall i | 0 <= i < |lines| ensures '\n' !in lines[i] {
      LineHasNoNewline(rows[i], showDate(rows[i].date), showMoney(rows[i].amount));
    }
    SplitJoinLines(lines);
  }

  /** A row's line holds no newline when its description and rendered date and amount hold none. */
  lemma LineHasNoNewline(t: Transaction, date: string, money: string)
    requires '\n' !in t.description && '\n' !in date && '\n' !in money
    ensures '\n' !in IntToString(t.id) + ". " + date + " — " + KindLabel(t.kind) + ": R$" + money + " — " + t.description
  {
    var id := IntToString(t.id);
    assert forall i :: 0 <= i < |id| ==> id[i] != '\n';
    assert '\n' !in KindLabel(t.kind);
  }
}
