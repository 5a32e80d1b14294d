/**
 * The command handlers of bot.py that write to the ledger: `/receita` and `/gasto`
 * (`cmd_receita`, `cmd_gasto`) and `/apagar` (`cmd_apagar`). Each splits the message text,
 * parses its arguments, and either replies with a usage or "invalid" message and changes
 * nothing, or performs one store operation and replies with its outcome. `float()` is the
 * parameter `parseFloat`, the two-decimal rendering of an amount the parameter `showMoney`.
 */
module Commands {
  import opened Wrappers
  import opened PyText
  import opened Rows
  import opened Store

  /** Which of the two recording commands: `/receita` records income, `/gasto` an expense. */
  datatype Kind = Income | Expense

  /** The value stored in the `type` column. */
  function TypeOf(k: Kind): (kind: string)
    ensures kind == IncomeType <==> k == Income
    ensures kind == ExpenseType <==> k == Expense
  {
    assert IncomeType[0] != ExpenseType[0];
    match k
    case Income => IncomeType
    case Expense => ExpenseType
  }

  /** The description stored when the message gives none. */
  function DefaultDescription(k: Kind): string {
    match k
    case Income => "Receita"
    case Expense => "Gasto"
  }

  function UsageText(k: Kind): string {
    match k
    case Income => "Uso: /receita <valor> [descrição]"
    case Expense => "Uso: /gasto <valor> [descrição]"
  }

  function InvalidAmountText(k: Kind): string {
    match k
    case Income => "Valor inválido. Ex: /receita 1500 Salário"
    case Expense => "Valor inválido. Ex: /gasto 12.50 Café"
  }

  function RecordedText(k: Kind, id: nat, amount: real, showMoney: real -> string): string {
    match k
    case Income => "\U{2705} Receita registrada (id: " + IntToString(id) + ") — R$" + showMoney(amount)
    case Expense => "\U{2705} Gasto registrado (id: " + IntToString(id) + ") — R$" + showMoney(amount)
  }

  const DeleteUsageText: string := "Uso: /apagar <id> (veja /listar para obter o id)"
  const InvalidIdText: string := "ID inválido."
  const NotFoundText: string := "Transação não encontrada ou não pertence a você."

  function RemovedText(id: int): string {
    "\U{2705} Transação " + IntToString(id) + " removida."
  }

  /** Why a command's arguments were refused: too few tokens, or a value that does not parse. */
  datatype ArgError = Usage | Invalid

  /** The arguments of `/receita` and `/gasto`. */
  datatype Entry = Entry(amount: real, description: string)

  /** `parts = text.split(maxsplit=2)`, then `float(parts[1])` and the description. */
  function ParseEntry(text: string, k: Kind, parseFloat: string -> Option<real>): (r: Result<Entry, ArgError>)
    ensures r.Success? ==> r.value.description != [] && !IsSpace(r.value.description[0])
  {
    var parts := Split(text, 2);
    if |parts| < 2 then Failure(Usage)
    else match parseFloat(parts[1])
      case None => Failure(Invalid)
      case Some(v) => Success(Entry(v, if |parts| > 2 then parts[2] else DefaultDescription(k)))
  }

  /** `parts = text.split(maxsplit=1)`, then `int(parts[1])`. */
  function ParseId(text: string): Result<int, ArgError> {
    var parts := Split(text, 1);
    if |parts| < 2 then Failure(Usage)
    else match ParseInt(parts[1])
      case None => Failure(Invalid)
      case Some(n) => Success(n)
  }

  /**
   * A command, an amount and a description: the amount is `float()` of the second token and
   * the description is all the rest of the text, inner and trailing whitespace included.
   */
  lemma EntryWithDescription(k: Kind, parseFloat: string -> Option<real>,
                             ws0: string, cmd: string, ws1: string, amount: string, ws2: string, desc: string)
    requires AllSpace(ws0) && Word(cmd) && ws1 != [] && AllSpace(ws1) && Word(amount)
    requires ws2 != [] && AllSpace(ws2) && desc != [] && !IsSpace(desc[0])
    ensures ParseEntry(ws0 + cmd + ws1 + amount + ws2 + desc, k, parseFloat)
         == match parseFloat(amount)
            case None => Failure(Invalid)
            case Some(v) => Success(Entry(v, desc))
  {
    var tail2 := ws2 + desc;
    var tail1 := ws1 + amount + tail2;
    assert ws0 + cmd + ws1 + amount + ws2 + desc == ws0 + cmd + tail1;
    SplitWord(ws0, cmd, tail1, 2);
    SplitWord(ws1, amount, tail2, 1);
    SplitRest(ws2, desc);
  }

  /** A command and an amount alone: the description defaults to "Receita" or "Gasto". */
  lemma EntryWithoutDescription(k: Kind, parseFloat: string -> Option<real>,
                                ws0: string, cmd: string, ws1: string, amount: string, ws2: string)
    requires AllSpace(ws0) && Word(cmd) && ws1 != [] && AllSpace(ws1) && Word(amount) && AllSpace(ws2)
    ensures ParseEntry(ws0 + cmd + ws1 + amount + ws2, k, parseFloat)
         == match parseFloat(amount)
            case None => Failure(Invalid)
            case Some(v) => Success(Entry(v, DefaultDescription(k)))
  {
    var tail1 := ws1 + amount + ws2;
    assert ws0 + cmd + ws1 + amount + ws2 == ws0 + cmd + tail1;
    SplitWord(ws0, cmd, tail1, 2);
    SplitWord(ws1, amount, ws2, 1);
    SplitBlank(ws2, 0);
  }

  /** A command with no amount after it gets the usage reply. */
  lemma EntryMissingAmount(k: Kind, parseFloat: string -> Option<real>, ws0: string, cmd: string, ws1: string)
    requires AllSpace(ws0) && AllSpace(ws1) && (cmd == [] || Word(cmd))
    ensures ParseEntry(ws0 + cmd + ws1, k, parseFloat) == Failure(Usage)
  {
    if cmd == [] {
      assert ws0 + cmd + ws1 == ws0 + ws1;
      SplitBlank(ws0 + ws1, 2);
    } else {
      SplitWord(ws0, cmd, ws1, 2);
      SplitBlank(ws1, 1);
    }
  }

  /** `/apagar` followed by an id as `f"{id}"` writes it reads that id back. */
  lemma IdOfString(ws0: string, cmd: string, ws1: string, id: int, ws2: string)
    requires AllSpace(ws0) && Word(cmd) && ws1 != [] && AllSpace(ws1) && AllIntSpace(ws2)
    ensures ParseId(ws0 + cmd + ws1 + IntToString(id) + ws2) == Success(id)
  {
    var s := IntToString(id);
    var tail := ws1 + (s + ws2);
    assert ws0 + cmd + ws1 + s + ws2 == ws0 + cmd + tail;
    SplitWord(ws0, cmd, tail, 1);
    SplitRest(ws1, s + ws2);
    assert [] + s + ws2 == s + ws2;
    ParseIntOfString([], id, ws2);
  }

  /**
   * An id followed by one of the separators U+001C to U+001F is refused as invalid: `split()`
   * keeps the separator in the last part and `int()` does not skip it.
   */
  lemma IdWithSeparator(ws0: string, cmd: string, ws1: string, id: int, c: char)
    requires AllSpace(ws0) && Word(cmd) && ws1 != [] && AllSpace(ws1)
    requires '\U{001C}' <= c <= '\U{001F}'
    ensures ParseId(ws0 + cmd + ws1 + IntToString(id) + [c]) == Failure(Invalid)
  {
    var s := IntToString(id) + [c];
    var tail := ws1 + s;
    assert ws0 + cmd + ws1 + IntToString(id) + [c] == ws0 + cmd + tail;
    SplitWord(ws0, cmd, tail, 1);
    SplitRest(ws1, s);
    IntRefusesSeparator(id, c);
  }

  /** `/apagar` with no id gets the usage reply. */
  lemma IdMissing(ws0: string, cmd: string, ws1: string)
    requires AllSpace(ws0) && AllSpace(ws1) && (cmd == [] || Word(cmd))
    ensures ParseId(ws0 + cmd + ws1) == Failure(Usage)
  {
    if cmd == [] {
      assert ws0 + cmd + ws1 == ws0 + ws1;
      SplitBlank(ws0 + ws1, 1);
    } else {
      SplitWord(ws0, cmd, ws1, 1);
      SplitBlank(ws1, 0);
    }
  }

  /**
   * `cmd_receita` / `cmd_gasto` for the message `text` from `user`, handled at time `now`:
   * on refused arguments the ledger is left exactly as it was.
   */
  method RecordCommand(ledger: Ledger, k: Kind, user: UserId, text: string,
                       parseFloat: string -> Option<real>, showMoney: real -> string, now: Date)
    returns (reply: string)
    requires ledger.Valid()
    modifies ledger
    ensures ledger.Valid()
    ensures match ParseEntry(text, k, parseFloat)
      case Failure(e) =>
        && unchanged(ledger)
        && reply == (if e == Usage then UsageText(k) else InvalidAmountText(k))
      case Success(entry) =>
        && ledger.rows == old(ledger.rows)
             + [Transaction(old(ledger.nextId), user, TypeOf(k), entry.amount, entry.description, now)]
        && ledger.users == old(ledger.users)
        && ledger.nextId == old(ledger.nextId) + 1
        && ledger.issued == old(ledger.issued) + {old(ledger.nextId)}
        && reply == RecordedText(k, old(ledger.nextId), entry.amount, showMoney)
  {
    var parsed := ParseEntry(text, k, parseFloat);
    match parsed
    case Failure(e) =>
      reply := if e == Usage then UsageText(k) else InvalidAmountText(k);
    case Success(entry) =>
      var id := ledger.AddTransaction(user, TypeOf(k), entry.amount, entry.description, now);
      reply := RecordedText(k, id, entry.amount, showMoney);
  }

  /** `cmd_apagar` for the message `text` from `user`: deletes only a row that `user` owns. */
  method DeleteCommand(ledger: Ledger, user: UserId, text: string) returns (reply: string)
    requires ledger.Valid()
    modifies ledger
    ensures ledger.Valid()
    ensures match ParseId(text)
      case Failure(e) =>
        && unchanged(ledger)
        && reply == (if e == Usage then DeleteUsageText else InvalidIdText)
      case Success(id) =>
        && ledger.rows == Without(old(ledger.rows), user, id)
        && ledger.users == old(ledger.users) && ledger.nextId == old(ledger.nextId)
        && reply == if exists t :: t in old(ledger.rows) && t.id == id && t.owner == user
                    then RemovedText(id) else NotFoundText
  {
    var parsed := ParseId(text);
    match parsed
    case Failure(e) =>
      reply := if e == Usage then DeleteUsageText else InvalidIdText;
    case Success(id) =>
      var ok := ledger.DeleteTransaction(user, id);
      reply := if ok then RemovedText(id) else NotFoundText;
  }

  lemma CommandWords()
    ensures Word("/receita") && Word("/gasto") && Word("/apagar") && AllSpace(" ") && AllSpace("") && AllIntSpace("")
  {
  }

  /**
   * A client of the handlers: an income `x`, an expense `y`, the expense deleted again, with a
   * refused amount and another user's delete attempt in between. The balance goes from `x`
   * to `x - y` and back to `x`, from the contracts above alone.
   */
  method BalanceScenario(u: UserId, other: UserId, parseFloat: string -> Option<real>,
                         showMoney: real -> string, now: Date,
                         income: string, x: real, expense: string, y: real, bad: string, desc: string)
    requires u != other
    requires Word(income) && Word(expense) && Word(bad) && desc != [] && !IsSpace(desc[0])
    requires parseFloat(income) == Some(x) && parseFloat(expense) == Some(y) && parseFloat(bad) == None
  {
    var text1 := "/receita " + income + " " + desc;
    var text2 := "/receita " + bad;
    var text3 := "/gasto " + expense;
    var text4 := "/apagar " + IntToString(2);
    ScenarioParses(parseFloat, income, x, expense, y, bad, desc);
    var t1 := Transaction(1, u, IncomeType, x, desc, now);
    var t2 := Transaction(2, u, ExpenseType, y, "Gasto", now);
    ScenarioBalances(t1, t2, u);

    var ledger := new Ledger();
    IncomeStep(ledger, u, text1, parseFloat, showMoney, now, x, desc);
    assert Balance(ledger.rows, u) == x;
    var reply := RefusedStep(ledger, u, text2, parseFloat, showMoney, now);
    assert reply == InvalidAmountText(Income) && ledger.rows == [t1];
    ExpenseStep(ledger, u, text3, parseFloat, showMoney, now, t1, y);
    assert ledger.rows == [t1, t2] && Balance(ledger.rows, u) == x - y;
    ForeignDeleteStep(ledger, other, text4);
    assert ledger.rows == [t1, t2];
    DeleteStep(ledger, u, text4, t1, t2);
    assert ledger.rows == [t1] && Balance(ledger.rows, u) == x;
  }

  lemma ScenarioBalances(t1: Transaction, t2: Transaction, u: UserId)
    requires t1.owner == u && t1.kind == IncomeType && t2.owner == u && t2.kind == ExpenseType
    ensures Balance([t1], u) == t1.amount
    ensures Balance([t1, t2], u) == t1.amount - t2.amount
  {
    BalanceOfOwnRows([], u);
    BalanceAfterAdd([], t1, u);
    BalanceAfterAdd([t1], t2, u);
    assert [t1] + [t2] == [t1, t2];
  }

  lemma ScenarioParses(parseFloat: string -> Option<real>,
                       income: string, x: real, expense: string, y: real, bad: string, desc: string)
    requires Word(income) && Word(expense) && Word(bad) && desc != [] && !IsSpace(desc[0])
    requires parseFloat(income) == Some(x) && parseFloat(expense) == Some(y) && parseFloat(bad) == None
    ensures ParseEntry("/receita " + income + " " + desc, Income, parseFloat) == Success(Entry(x, desc))
    ensures ParseEntry("/receita " + bad, Income, parseFloat) == Failure(Invalid)
    ensures ParseEntry("/gasto " + expense, Expense, parseFloat) == Success(Entry(y, "Gasto"))
    ensures ParseId("/apagar " + IntToString(2)) == Success(2)
  {
    CommandWords();
    assert "/receita " + income + " " + desc == "" + "/receita" + " " + income + " " + desc;
    assert "/receita " + bad == "" + "/receita" + " " + bad + "";
    assert "/gasto " + expense == "" + "/gasto" + " " + expense + "";
    assert "/apagar " + IntToString(2) == "" + "/apagar" + " " + IntToString(2) + "";
    EntryWithDescription(Income, parseFloat, "", "/receita", " ", income, " ", desc);
    EntryWithoutDescription(Income, parseFloat, "", "/receita", " ", bad, "");
    EntryWithoutDescription(Expense, parseFloat, "", "/gasto", " ", expense, "");
    IdOfString("", "/apagar", " ", 2, "");
  }

  method IncomeStep(ledger: Ledger, u: UserId, text: string, parseFloat: string -> Option<real>,
                    showMoney: real -> string, now: Date, x: real, desc: string)
    requires ledger.Valid() && ledger.rows == [] && ledger.nextId == 1
    requires ParseEntry(text, Income, parseFloat) == Success(Entry(x, desc))
    modifies ledger
    ensures ledger.Valid() && ledger.rows == [Transaction(1, u, IncomeType, x, desc, now)]
    ensures ledger.nextId == 2
  {
    var reply := RecordCommand(ledger, Income, u, text, parseFloat, showMoney, now);
    assert reply == RecordedText(Income, 1, x, showMoney);
  }

  method RefusedStep(ledger: Ledger, u: UserId, text: string, parseFloat: string -> Option<real>,
                     showMoney: real -> string, now: Date) returns (reply: string)
    requires ledger.Valid() && ParseEntry(text, Income, parseFloat) == Failure(Invalid)
    modifies ledger
    ensures ledger.Valid() && ledger.rows == old(ledger.rows) && ledger.nextId == old(ledger.nextId)
    ensures reply == InvalidAmountText(Income)
  {
    reply := RecordCommand(ledger, Income, u, text, parseFloat, showMoney, now);
  }

  method ExpenseStep(ledger: Ledger, u: UserId, text: string, parseFloat: string -> Option<real>,
                     showMoney: real -> string, now: Date, t1: Transaction, y: real)
    requires ledger.Valid() && ledger.rows == [t1] && ledger.nextId == 2
    requires ParseEntry(text, Expense, parseFloat) == Success(Entry(y, "Gasto"))
    modifies ledger
    ensures ledger.Valid() && ledger.rows == [t1, Transaction(2, u, ExpenseType, y, "Gasto", now)]
  {
    var reply := RecordCommand(ledger, Expense, u, text, parseFloat, showMoney, now);
    assert reply == RecordedText(Expense, 2, y, showMoney);
  }

  method ForeignDeleteStep(ledger: Ledger, other: UserId, text: string)
    requires ledger.Valid() && ParseId(text) == Success(2)
    requires forall t :: t in ledger.rows ==> t.owner != other
    modifies ledger
    ensures ledger.Valid() && ledger.rows == old(ledger.rows)
  {
    WithoutNoMatch(ledger.rows, other, 2);
    var reply := DeleteCommand(ledger, other, text);
    assert reply == NotFoundText;
  }

  method DeleteStep(ledger: Ledger, u: UserId, text: string, t1: Transaction, t2: Transaction)
    requires ledger.Valid() && ParseId(text) == Success(2)
    requires ledger.rows == [t1, t2] && t2.id == 2 && t2.owner == u
    modifies ledger
    ensures ledger.Valid() && ledger.rows == [t1]
  {
    var rows := ledger.rows;
    WithoutRemovesOne(rows, u, 2, 1);
    assert rows[..1] + rows[2..] == [t1];
    var reply := DeleteCommand(ledger, u, text);
    assert reply == RemovedText(2);
  }
}
