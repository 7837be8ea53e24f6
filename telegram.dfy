// Telegram notifications (lib/telegram.ts): the configuration guard in
// front of the Bot API call, and the two message layouts, one for an
// income or expense and one for a savings deposit or withdrawal.
module Telegram {
  import opened Wrappers
  import opened Text
  import opened Calendar
  import opened Records
  import SheetCells
  import TransactionForm
  import ExcelParser

  const ApiUrl := "https://api.telegram.org/bot"
  const NotConfigured := "Telegram not configured"
  const NoDescription := "Không có mô tả"

  /** The POST made to the Bot API: the URL with the token, and the JSON body's fields. */
  datatype Request = Request(url: string, chatId: string, text: string, parseMode: string)

  /** What the fetch gave: an ok response, a non-ok one with its body text, or a thrown error's text. */
  datatype Response = Accepted | Rejected(body: string) | Thrown(message: string)

  datatype SendResult = SendResult(success: bool, error: Option<string>)

  predicate Configured(value: Option<string>) { value.Some? && value.value != "" }

  /** The request sendTelegramMessage makes; None when the token or the chat ID is missing or empty. */
  function MessageRequest(botToken: Option<string>, chatId: Option<string>, message: string): (r: Option<Request>)
    ensures r.Some? <==> Configured(botToken) && Configured(chatId)
    ensures r.Some? ==> r.value.url == ApiUrl + botToken.value + "/sendMessage"
                        && r.value.chatId == chatId.value && r.value.text == message && r.value.parseMode == "HTML"
  {
    if !Configured(botToken) || !Configured(chatId) then None
    else Some(Request(ApiUrl + botToken.value + "/sendMessage", chatId.value, message, "HTML"))
  }

  /**
   * sendTelegramMessage, the environment variables and the network given:
   * without configuration no request is made and the result says so;
   * otherwise success is exactly an ok response, and a failure carries the
   * response body or the error's text.
   */
  function SendTelegramMessage(botToken: Option<string>, chatId: Option<string>, message: string,
                               respond: Request -> Response): (r: SendResult)
    ensures !(Configured(botToken) && Configured(chatId)) ==> r == SendResult(false, Some(NotConfigured))
    ensures Configured(botToken) && Configured(chatId) ==>
      var response := respond(MessageRequest(botToken, chatId, message).value);
      (r.success <==> response.Accepted?)
      && (response.Rejected? ==> r.error == Some(response.body))
      && (response.Thrown? ==> r.error == Some(response.message))
    ensures r.success <==> r.error.None?
  {
    match MessageRequest(botToken, chatId, message)
    case None => SendResult(false, Some(NotConfigured))
    case Some(request) =>
      match respond(request)
      case Accepted => SendResult(true, None)
      case Rejected(body) => SendResult(false, Some(body))
      case Thrown(text) => SendResult(false, Some(text))
  }

  /** toLocaleString('vi-VN') of a whole number that may be negative. */
  function SignedGrouped(n: int): (r: string)
    ensures n >= 0 ==> r == TransactionForm.Grouped(n)
    ensures n < 0 ==> r == "-" + TransactionForm.Grouped(-n)
  {
    if n < 0 then "-" + TransactionForm.Grouped(-n) else TransactionForm.Grouped(n)
  }

  /** A grouped balance reads back as the balance, its sign included. */
  lemma SignedGroupedParse(n: int)
    ensures TransactionForm.ParseAmount(SignedGrouped(n)) == n
  {
    var s := SignedGrouped(n);
    if n < 0 {
      var m: nat := -n;
      assert s == "-" + TransactionForm.Grouped(m);
      NegativeGroupedParse(m);
    } else {
      assert s == TransactionForm.Grouped(n);
      TransactionForm.GroupedParse(n);
    }
  }

  /** The minus sign in front of a grouped number survives the removal of dots and commas and negates the number read. */
  lemma NegativeGroupedParse(m: nat)
    ensures TransactionForm.ParseAmount("-" + TransactionForm.Grouped(m)) == -(m as int)
  {
    var d := NatToString(m);
    var g := TransactionForm.Grouped(m);
    assert RemoveChar(RemoveChar("-" + g, '.'), ',') == "-" + d by {
      UngroupThousands(d);
      MinusKept(g, '.');
      MinusKept(d, ',');
      forall i | 0 <= i < |d| ensures d[i] != ',' { assert IsDigit(d[i]); }
      RemoveCharAbsent(d, ',');
    }
    NegativeDigits(d);
    NatToStringValue(m);
  }

  lemma MinusKept(s: string, c: char)
    requires c != '-'
    ensures RemoveChar("-" + s, c) == "-" + RemoveChar(s, c)
  {
    RemoveCharConcat("-", s, c);
    RemoveCharAbsent("-", c);
  }

  lemma NegativeDigits(d: string)
    requires |d| > 0 && AllDigits(d)
    ensures LeadingInt("-" + d) == Some(-(DigitsValue(d) as int))
  {
    var t := "-" + d;
    assert t[0] == '-';
    assert !IsSpace(t[0]);
    assert TrimStart(t) == t;
    assert t[1..] == d;
    DigitRunAll(d);
    assert d[..|d|] == d;
  }

  /** The day and month as dd/MM, toLocaleDateString('vi-VN') with only those two parts. */
  function DayMonth(d: Date): string { Pad2(d.day) + "/" + Pad2(d.month) }

  function TransactionEmoji(kind: TxType): string { if kind == Income then "💰" else "😕" }
  function TransactionSign(kind: TxType): string { if kind == Income then "+" else "-" }

  /** The description, or the placeholder when it is empty. */
  function ShownDescription(description: string): (r: string)
    ensures r != ""
    ensures description != "" ==> r == description
  {
    if description != "" then description else NoDescription
  }

  /** formatTransactionMessage's first line: emoji, signed amount with the đồng sign, and the description. */
  function TransactionHeadline(amount: nat, description: string, kind: TxType): string
  {
    TransactionEmoji(kind) + " " + TransactionSign(kind) + TransactionForm.Grouped(amount) + "₫ : " + ShownDescription(description)
  }

  /** formatTransactionMessage's second line: the day and the category in parentheses. */
  function TransactionFooter(date: Date, category: string): string
  {
    "(" + DayMonth(date) + " - " + category + ")"
  }

  /** formatTransactionMessage with the amount a whole number of đồng. */
  function FormatTransactionMessage(amount: nat, description: string, date: Date, category: string, kind: TxType): string
  {
    TransactionHeadline(amount, description, kind) + "\n" + TransactionFooter(date, category)
  }

  /**
   * The message starts with the type's emoji and sign; the amount text
   * after them reads back as the amount and is closed by the đồng sign.
   */
  lemma TransactionMessageStart(amount: nat, description: string, date: Date, category: string, kind: TxType)
    ensures var m := FormatTransactionMessage(amount, description, date, category, kind);
      var k := 3 + |TransactionForm.Grouped(amount)|;
      k < |m| && m[0] == (if kind == Income then '💰' else '😕') && m[1] == ' '
      && m[2] == (if kind == Income then '+' else '-')
      && TransactionForm.ParseAmount(m[3..k]) == amount && m[k] == '₫'
  {
    var g := TransactionForm.Grouped(amount);
    var lead := TransactionEmoji(kind) + " " + TransactionSign(kind);
    var a, b, c, d := "₫ : ", ShownDescription(description), "\n", TransactionFooter(date, category);
    var rest := a + b + c + d;
    assert |lead| == 3 && lead[0] == (if kind == Income then '💰' else '😕') && lead[1] == ' '
      && lead[2] == (if kind == Income then '+' else '-');
    assert rest[0] == '₫';
    var front := lead + g;
    assert FormatTransactionMessage(amount, description, date, category, kind) == front + a + b + c + d;
    Assoc(front, a, b);
    Assoc(front, a + b, c);
    Assoc(front, a + b + c, d);
    ThreePieces(lead, g, rest);
    TransactionForm.GroupedParse(amount);
  }

  /** In a line of three pieces: the front's characters, then the middle piece, then the first character of the back. */
  lemma ThreePieces(front: string, piece: string, back: string)
    requires |back| > 0
    ensures var line, k := front + piece + back, |front| + |piece|;
      k < |line| && |line| == k + |back| && (forall i :: 0 <= i < |front| ==> line[i] == front[i])
      && line[|front|..k] == piece && line[k] == back[0]
  {
    Segment(front, piece, back);
  }

  /**
   * When neither the description nor the category holds a line break the
   * message is exactly two lines, the first ending in the description (or
   * the placeholder) and the second naming the day and the category.
   */
  lemma TransactionMessageLines(amount: nat, description: string, date: Date, category: string, kind: TxType)
    requires '\n' !in description && '\n' !in category
    ensures var lines := Split(FormatTransactionMessage(amount, description, date, category, kind), '\n');
      |lines| == 2 && lines[1] == TransactionFooter(date, category)
      && EndsWith(lines[0], ShownDescription(description))
  {
    var head := TransactionHeadline(amount, description, kind);
    var foot := TransactionFooter(date, category);
    NoBreakInHeadline(amount, description, kind);
    NoBreakInFooter(date, category);
    TwoLines(head, foot);
    HeadlineEnding(amount, description, kind);
  }

  lemma HeadlineEnding(amount: nat, description: string, kind: TxType)
    ensures EndsWith(TransactionHeadline(amount, description, kind), ShownDescription(description))
  {
    var shown := ShownDescription(description);
    var front := TransactionEmoji(kind) + " " + TransactionSign(kind) + TransactionForm.Grouped(amount) + "₫ : ";
    var head := TransactionHeadline(amount, description, kind);
    assert head == front + shown;
    assert head[|head| - |shown|..] == shown;
  }

  lemma NoBreakInHeadline(amount: nat, description: string, kind: TxType)
    requires '\n' !in description
    ensures '\n' !in TransactionHeadline(amount, description, kind)
  {
    var lead := TransactionEmoji(kind) + " " + TransactionSign(kind);
    assert '\n' !in lead;
    var g := TransactionForm.Grouped(amount);
    NoBreakInNumber(amount);
    var colon, shown := "₫ : ", ShownDescription(description);
    assert '\n' !in colon && '\n' !in shown;
    assert TransactionHeadline(amount, description, kind) == lead + g + colon + shown;
    NoBreakConcat(lead, g);
    NoBreakConcat(lead + g, colon);
    NoBreakConcat(lead + g + colon, shown);
  }

  lemma NoBreakInFooter(date: Date, category: string)
    requires '\n' !in category
    ensures '\n' !in TransactionFooter(date, category)
  {
    var day := DayMonth(date);
    assert '\n' !in day by {
      NoBreakInNumber(date.day);
      NoBreakInNumber(date.month);
      NoBreakConcat(Pad2(date.day), "/");
      NoBreakConcat(Pad2(date.day) + "/", Pad2(date.month));
    }
    var open, between, close := "(", " - ", ")";
    assert TransactionFooter(date, category) == open + day + between + category + close;
    NoBreakConcat(open, day);
    NoBreakConcat(open + day, between);
    NoBreakConcat(open + day + between, category);
    NoBreakConcat(open + day + between + category, close);
  }

  lemma Assoc(x: string, y: string, z: string)
    ensures x + y + z == x + (y + z)
  {
  }

  lemma TwoLines(a: string, b: string)
    requires '\n' !in a && '\n' !in b
    ensures Split(a + "\n" + b, '\n') == [a, b]
  {
    SheetCells.SplitSingle(a, '\n');
    SheetCells.SplitSingle(b, '\n');
    SheetCells.SplitApart(a, '\n', b);
    assert a + "\n" + b == a + ['\n'] + b;
  }

  lemma ThreeLines(a: string, b: string, c: string)
    requires '\n' !in a && '\n' !in b && '\n' !in c
    ensures Split(a + "\n" + b + "\n" + c, '\n') == [a, b, c]
  {
    TwoLines(a, b);
    SheetCells.SplitSingle(c, '\n');
    SheetCells.SplitApart(a + "\n" + b, '\n', c);
    assert a + "\n" + b + "\n" + c == (a + "\n" + b) + ['\n'] + c;
  }

  predicate EndsWith(s: string, suffix: string)
  {
    |suffix| <= |s| && s[|s| - |suffix|..] == suffix
  }

  /** Numbers are written without line breaks. */
  lemma NoBreakInNumber(n: nat)
    ensures '\n' !in TransactionForm.Grouped(n)
    ensures '\n' !in Pad2(n)
    ensures '\n' !in NatToString(n)
  {
    var d := NatToString(n);
    SheetCells.GroupedChars(d);
    var g := TransactionForm.Grouped(n);
    assert forall i :: 0 <= i < |g| ==> g[i] != '\n';
    assert forall i :: 0 <= i < |d| ==> d[i] != '\n';
    if |d| < 2 {
      assert Pad2(n) == ['0'] + d;
    }
  }

  /** The note in parentheses after the amount, or nothing when the note is empty. */
  function NoteSuffix(note: string): (r: string)
    ensures r == "" <==> note == ""
  {
    if note != "" then " (" + note + ")" else ""
  }

  /** formatSavingMessage's three lines, the current date given as `today`. */
  function SavingHeader(kind: SavingType): string
  {
    if kind == Deposit then "🚀 Gửi tiết kiệm" else "🆘 Rút tiết kiệm"
  }

  function SavingAmountLine(amount: nat, kind: SavingType, note: string): string
  {
    (if kind == Deposit then "+ " else "- ") + TransactionForm.Grouped(amount) + "₫" + NoteSuffix(note)
  }

  function SavingBalanceLine(kind: SavingType, balance: int, today: Date): string
  {
    "→ Ngày " + ExcelParser.ExportDay(today) + (if kind == Deposit then " thực tế có: " else " thực tế còn: ")
      + SignedGrouped(balance) + "₫"
  }

  function FormatSavingMessage(amount: nat, kind: SavingType, note: string, balance: int, today: Date): string
  {
    SavingHeader(kind) + "\n" + SavingAmountLine(amount, kind, note) + "\n" + SavingBalanceLine(kind, balance, today)
  }

  /**
   * With a note that holds no line break the message is three lines: the
   * type's header, the amount line and the balance line.
   */
  lemma SavingMessageLines(amount: nat, kind: SavingType, note: string, balance: int, today: Date)
    requires '\n' !in note
    ensures var lines := Split(FormatSavingMessage(amount, kind, note, balance, today), '\n');
      |lines| == 3 && lines[0] == SavingHeader(kind)
      && lines[1] == SavingAmountLine(amount, kind, note)
      && lines[2] == SavingBalanceLine(kind, balance, today)
  {
    var header, middle := SavingHeader(kind), SavingAmountLine(amount, kind, note);
    assert '\n' !in header;
    NoBreakInAmountLine(amount, kind, note);
    NoBreakInBalanceLine(kind, balance, today);
    ThreeLines(header, middle, SavingBalanceLine(kind, balance, today));
  }

  /**
   * The amount line starts with the type's sign; the amount after it reads
   * back as the amount and is closed by the đồng sign, and the line goes on
   * exactly when there is a note.
   */
  lemma SavingAmountLineFacts(amount: nat, kind: SavingType, note: string)
    ensures var line := SavingAmountLine(amount, kind, note);
      var k := 2 + |TransactionForm.Grouped(amount)|;
      k < |line| && line[0] == (if kind == Deposit then '+' else '-')
      && TransactionForm.ParseAmount(line[2..k]) == amount && line[k] == '₫'
      && (note == "" <==> |line| == k + 1)
  {
    var g := TransactionForm.Grouped(amount);
    var sign := if kind == Deposit then "+ " else "- ";
    var rest := "₫" + NoteSuffix(note);
    assert SavingAmountLine(amount, kind, note) == sign + g + rest;
    ThreePieces(sign, g, rest);
    TransactionForm.GroupedParse(amount);
  }


  /** The balance line ends with the balance, negative or not, which reads back as the balance, and the đồng sign. */
  lemma SavingBalanceLineFacts(kind: SavingType, balance: int, today: Date)
    ensures var line := SavingBalanceLine(kind, balance, today);
      var b := SignedGrouped(balance);
      |b| + 1 <= |line| && line[|line| - |b| - 1..|line| - 1] == b && line[|line| - 1] == '₫'
      && TransactionForm.ParseAmount(b) == balance
  {
    var b := SignedGrouped(balance);
    var front := "→ Ngày " + ExcelParser.ExportDay(today) + (if kind == Deposit then " thực tế có: " else " thực tế còn: ");
    assert SavingBalanceLine(kind, balance, today) == front + b + "₫";
    Segment(front, b, "₫");
    SignedGroupedParse(balance);
  }

  lemma NoBreakInBalanceLine(kind: SavingType, balance: int, today: Date)
    ensures '\n' !in SavingBalanceLine(kind, balance, today)
  {
    var day := ExcelParser.ExportDay(today);
    NoBreakInDay(today);
    var wording := if kind == Deposit then " thực tế có: " else " thực tế còn: ";
    assert '\n' !in wording;
    var b := SignedGrouped(balance);
    NoBreakInSigned(balance);
    var opening, closing := "→ Ngày ", "₫";
    assert '\n' !in opening && '\n' !in closing;
    assert SavingBalanceLine(kind, balance, today) == opening + day + wording + b + closing;
    NoBreakConcat(opening, day);
    NoBreakConcat(opening + day, wording);
    NoBreakConcat(opening + day + wording, b);
    NoBreakConcat(opening + day + wording + b, closing);
  }

  lemma NoBreakInAmountLine(amount: nat, kind: SavingType, note: string)
    requires '\n' !in note
    ensures '\n' !in SavingAmountLine(amount, kind, note)
  {
    var sign, closing := if kind == Deposit then "+ " else "- ", "₫";
    var g, suffix := TransactionForm.Grouped(amount), NoteSuffix(note);
    NoBreakInNumber(amount);
    assert '\n' !in sign && '\n' !in closing;
    assert '\n' !in suffix by {
      if note != "" {
        NoBreakConcat(" (", note);
        NoBreakConcat(" (" + note, ")");
      }
    }
    assert SavingAmountLine(amount, kind, note) == sign + g + closing + suffix;
    NoBreakConcat(sign, g);
    NoBreakConcat(sign + g, closing);
    NoBreakConcat(sign + g + closing, suffix);
  }

  lemma NoBreakInDay(today: Date)
    ensures '\n' !in ExcelParser.ExportDay(today)
  {
    NoBreakInNumber(today.day);
    NoBreakInNumber(today.month);
    NoBreakInNumber(if today.year < 0 then -today.year else today.year);
    assert '\n' !in IntToString(today.year);
  }

  lemma NoBreakInSigned(balance: int)
    ensures '\n' !in SignedGrouped(balance)
  {
    NoBreakInNumber(if balance < 0 then -balance else balance);
  }

  lemma NoBreakConcat(a: string, b: string)
    requires '\n' !in a && '\n' !in b
    ensures '\n' !in a + b
  {
  }
}
