/**
 * The canonical text of a query. The specification is a list of printed lexemes with the blanks around them;
 * the writers append their text to a buffer.
 */
module Printing {
  import opened Common
  import opened Text
  import opened NumberText
  import T = Tokens
  import opened Syntax
  import opened Buffers

  /** A lexeme as it stands in a text: its spelling and the blank space before and after it. */
  datatype Item = Item(sym: T.Symbol, before: string, after: string, raw: string)

  /** The tokens with one spelling. */
  function MarkText(k: T.Kind): string {
    match k
    case Dollar => "$"
    case At_ => "@"
    case Dot => "."
    case DotDot => ".."
    case LeftBracket => "["
    case RightBracket => "]"
    case LeftParen => "("
    case RightParen => ")"
    case Star => "*"
    case Question => "?"
    case Comma => ","
    case Colon => ":"
    case Equal => "=="
    case NotEqual => "!="
    case Less => "<"
    case LessEqual => "<="
    case Greater => ">"
    case GreaterEqual => ">="
    case And => "&&"
    case Or => "||"
    case Not => "!"
    case _ => ""
  }

  function Plain(k: T.Kind): Item {
    Item(T.Symbol(k, "", false), "", "", MarkText(k))
  }

  /** A token that is its own text. */
  function Worded(k: T.Kind, text: string): Item {
    Item(T.Symbol(k, text, false), "", "", text)
  }

  /** A string literal in this quote. */
  function Quotation(text: string, quote: char): Item {
    Item(T.Symbol(T.String, text, false), "", "", Quoted(text, quote))
  }

  function ItemText(x: Item): string {
    x.before + x.raw + x.after
  }

  function Render(xs: seq<Item>): string {
    if xs == [] then "" else ItemText(xs[0]) + Render(xs[1..])
  }

  // ---- The items of each construct

  function QueryItems(q: PathQuery): seq<Item>
    decreases q, 0
  {
    [Plain(if q.root then T.Dollar else T.At_)] + SegmentsItems(q.segments)
  }

  function SegmentsItems(ss: seq<Segment>): seq<Item>
    decreases ss, 0
  {
    if ss == [] then [] else SegmentItems(ss[0]) + SegmentsItems(ss[1..])
  }

  function SegmentItems(s: Segment): seq<Item>
    decreases s, 0
  {
    (if s.descendant then [Plain(T.DotDot)] else [])
      + ([Plain(T.LeftBracket)] + (SelectorsItems(s.selectors) + [Plain(T.RightBracket)]))
  }

  function SelectorsItems(ss: seq<Selector>): seq<Item>
    decreases ss, 0
  {
    if ss == [] then []
    else if |ss| == 1 then SelectorItems(ss[0])
    else SelectorItems(ss[0]) + ([Plain(T.Comma)] + SelectorsItems(ss[1..]))
  }

  function IntItem(n: int): Item {
    Worded(T.Int, IntText(n))
  }

  function SliceItems(a: SliceArgs): seq<Item> {
    (if a.start.Some? then [IntItem(a.start.value)] else [])
    + ([Plain(T.Colon)]
       + ((if a.end.Some? then [IntItem(a.end.value)] else [])
          + (if a.step.Some? then [Plain(T.Colon), IntItem(a.step.value)] else [])))
  }

  function SelectorItems(s: Selector): seq<Item>
    decreases s, 0
  {
    match s
    case Name(name) => [Quotation(name, '"')]
    case Index(index) => [IntItem(index)]
    case Slice(args) => SliceItems(args)
    case Wildcard => [Plain(T.Star)]
    case Filter(expr) => [Plain(T.Question)] + OrItems(expr)
  }

  function Joiner(k: T.Kind): Item {
    Item(T.Symbol(k, "", false), " ", " ", MarkText(k))
  }

  function OrItems(or: LogicalOr): seq<Item>
    decreases or, 0
  {
    if or == [] then []
    else if |or| == 1 then AndItems(or[0].terms)
    else AndItems(or[0].terms) + ([Joiner(T.Or)] + OrItems(or[1..]))
  }

  function AndItems(and: seq<BasicExpr>): seq<Item>
    decreases and, 0
  {
    if and == [] then []
    else if |and| == 1 then BasicItems(and[0])
    else BasicItems(and[0]) + ([Joiner(T.And)] + AndItems(and[1..]))
  }

  function BasicItems(e: BasicExpr): seq<Item>
    decreases e, 0
  {
    match e
    case Exist(q) => QueryItems(q)
    case NonExist(q) => [Plain(T.Not)] + QueryItems(q)
    case Paren(or) => [Plain(T.LeftParen)] + (OrItems(or) + [Plain(T.RightParen)])
    case NotParen(or) => [Plain(T.Not)] + ([Plain(T.LeftParen)] + (OrItems(or) + [Plain(T.RightParen)]))
    case Func(f) => CallItems(f)
    case NegFunc(f) => [Plain(T.Not)] + CallItems(f)
    case Comp(l, op, r) => ComparandItems(l) + ([Joiner(OpKind(op))] + ComparandItems(r))
  }

  function OpKind(op: CompOp): T.Kind {
    match op
    case Equal => T.Equal
    case NotEqual => T.NotEqual
    case Less => T.Less
    case LessEqual => T.LessEqual
    case Greater => T.Greater
    case GreaterEqual => T.GreaterEqual
  }

  function LiteralItem(l: Literal): Item {
    match l
    case StringLiteral(s) => Quotation(s, '"')
    case NumberLiteral(text) =>
      Worded(if ScanNumber(text, 0).Good? && ScanNumber(text, 0).float then T.Number else T.Int, text)
    case BoolLiteral(b) => if b then Worded(T.True, "true") else Worded(T.False, "false")
    case NullLiteral => Worded(T.Null, "null")
  }

  function ComparandItems(v: CompValue): seq<Item>
    decreases v, 0
  {
    match v
    case LiteralValue(l) => [LiteralItem(l)]
    case QueryValue(q) => QueryItems(q)
    case FuncValue(f) => CallItems(f)
  }

  function CallItems(f: FuncExpr): seq<Item>
    decreases f, 0
  {
    [Worded(T.Ident, f.name)] + ([Plain(T.LeftParen)] + (ArgsItems(f.args) + [Plain(T.RightParen)]))
  }

  function ArgComma(): Item {
    Item(T.Symbol(T.Comma, "", false), "", " ", ",")
  }

  function ArgsItems(args: seq<FuncArg>): seq<Item>
    decreases args, 0
  {
    if args == [] then []
    else if |args| == 1 then ArgItems(args[0])
    else ArgItems(args[0]) + ([ArgComma()] + ArgsItems(args[1..]))
  }

  function ArgItems(a: FuncArg): seq<Item>
    decreases a, 0
  {
    match a.source
    case LiteralArg(l) => [LiteralItem(l)]
    case QueryArg(q) => QueryItems(q)
    case LogicalArg(or) => OrItems(or)
    case FunctionArg(f) => CallItems(f)
  }

  /** The canonical string representation of a query. */
  function Print(q: PathQuery): string {
    Render(QueryItems(q))
  }

  // ---- Rendering

  lemma {:induction false} RenderConcat(a: seq<Item>, b: seq<Item>)
    ensures Render(a + b) == Render(a) + Render(b)
  {
    hide ItemText;
    if a == [] {
      assert a + b == b;
    } else {
      assert (a + b)[1..] == a[1..] + b;
      RenderConcat(a[1..], b);
    }
  }

  lemma RenderOne(x: Item)
    ensures Render([x]) == ItemText(x)
  {
    hide ItemText;
    assert [x][1..] == [];
  }

  lemma RenderCons(x: Item, rest: seq<Item>)
    ensures Render([x] + rest) == ItemText(x) + Render(rest)
  {
    hide ItemText;
    assert ([x] + rest)[1..] == rest;
  }

  lemma PlainText(k: T.Kind)
    ensures ItemText(Plain(k)) == MarkText(k)
    ensures ItemText(Joiner(k)) == " " + MarkText(k) + " "
  {
  }

  // ---- The writers

  lemma QueryText(q: PathQuery)
    ensures Render(QueryItems(q)) == (if q.root then "$" else "@") + Render(SegmentsItems(q.segments))
  {
    hide Render, SegmentsItems;
    PlainText(T.Dollar);
    PlainText(T.At_);
    RenderCons(Plain(if q.root then T.Dollar else T.At_), SegmentsItems(q.segments));
  }

  method WriteQuery(buf: Buffer, q: PathQuery)
    modifies buf
    ensures buf.text == old(buf.text) + Render(QueryItems(q))
    decreases q, 0
  {
    hide Render, QueryItems, SegmentsItems;
    QueryText(q);
    if q.root {
      buf.Write("$");
    } else {
      buf.Write("@");
    }
    WriteSegments(buf, q.segments);
  }

  /** What remains to be written from position `i`. */
  ghost function SegmentsRest(ss: seq<Segment>, i: nat): string {
    if i >= |ss| then "" else Render(SegmentsItems(ss[i..]))
  }

  lemma SegmentsStep(ss: seq<Segment>, i: nat)
    requires i < |ss|
    ensures SegmentsRest(ss, i) == Render(SegmentItems(ss[i])) + SegmentsRest(ss, i + 1)
  {
    hide Render, SegmentItems;
    assert ss[i..][0] == ss[i] && ss[i..][1..] == ss[i + 1..];
    RenderConcat(SegmentItems(ss[i]), SegmentsItems(ss[i + 1..]));
    EmptyItems();
  }

  lemma SegmentsStart(ss: seq<Segment>)
    ensures SegmentsRest(ss, 0) == Render(SegmentsItems(ss))
    ensures SegmentsRest(ss, |ss|) == ""
  {
    hide Render, SegmentsItems;
    assert ss[0..] == ss;
    EmptyItems();
  }

  /** The loop over the segments of a query. */
  method WriteSegments(buf: Buffer, ss: seq<Segment>)
    modifies buf
    ensures buf.text == old(buf.text) + Render(SegmentsItems(ss))
    decreases ss, 1
  {
    hide SegmentsRest, Render, SegmentItems, SegmentsItems;
    SegmentsStart(ss);
    ghost var start := buf.text;
    var i := 0;
    while i < |ss|
      invariant 0 <= i <= |ss|
      invariant buf.text + SegmentsRest(ss, i) == start + SegmentsRest(ss, 0)
    {
      SegmentsStep(ss, i);
      ghost var before := buf.text;
      WriteSegment(buf, ss[i]);
      Reassociate(before, Render(SegmentItems(ss[i])), SegmentsRest(ss, i + 1));
      i := i + 1;
    }
  }

  lemma EmptyItems()
    ensures Render([]) == ""
    ensures SegmentsItems([]) == [] && SelectorsItems([]) == [] && OrItems([]) == [] && AndItems([]) == []
            && ArgsItems([]) == []
  {
  }

  lemma Reassociate(a: string, b: string, c: string)
    ensures a + (b + c) == (a + b) + c
  {
  }

  lemma SegmentText(s: Segment)
    ensures Render(SegmentItems(s))
            == (if s.descendant then ".." else "") + ("[" + (Render(SelectorsItems(s.selectors)) + "]"))
  {
    hide Render, ItemText, SelectorsItems;
    var inner := SelectorsItems(s.selectors) + [Plain(T.RightBracket)];
    PlainText(T.LeftBracket);
    PlainText(T.RightBracket);
    RenderCons(Plain(T.LeftBracket), inner);
    RenderConcat(SelectorsItems(s.selectors), [Plain(T.RightBracket)]);
    RenderOne(Plain(T.RightBracket));
    if s.descendant {
      PlainText(T.DotDot);
      RenderCons(Plain(T.DotDot), [Plain(T.LeftBracket)] + inner);
    } else {
      assert [] + ([Plain(T.LeftBracket)] + inner) == [Plain(T.LeftBracket)] + inner;
    }
  }

  method WriteSegment(buf: Buffer, s: Segment)
    modifies buf
    ensures buf.text == old(buf.text) + Render(SegmentItems(s))
    decreases s, 0
  {
    hide Render, SelectorsItems, SegmentItems;
    SegmentText(s);
    if s.descendant {
      buf.Write("..");
    }
    buf.Write("[");
    WriteSelectors(buf, s.selectors);
    buf.Write("]");
  }

  /** What remains to be written from position `i`. */
  ghost function SelectorsRest(ss: seq<Selector>, i: nat): string {
    if i >= |ss| then "" else (if i > 0 then "," else "") + Render(SelectorsItems(ss[i..]))
  }

  lemma SelectorsText(ss: seq<Selector>)
    requires |ss| > 1
    ensures Render(SelectorsItems(ss)) == Render(SelectorItems(ss[0])) + ("," + Render(SelectorsItems(ss[1..])))
  {
    hide Render, SelectorItems, ItemText;
    SeparatorText();
    RenderConcat(SelectorItems(ss[0]), [Plain(T.Comma)] + SelectorsItems(ss[1..]));
    RenderCons(Plain(T.Comma), SelectorsItems(ss[1..]));
  }

  lemma SelectorsOne(ss: seq<Selector>)
    requires |ss| == 1
    ensures SelectorsItems(ss) == SelectorItems(ss[0])
  {
    hide SelectorItems;
  }

  lemma SelectorsStep(ss: seq<Selector>, i: nat)
    requires i < |ss|
    ensures SelectorsRest(ss, i)
            == (if i > 0 then "," else "") + Render(SelectorItems(ss[i])) + SelectorsRest(ss, i + 1)
  {
    hide Render, SelectorItems, SelectorsItems;
    var rest := ss[i..];
    assert rest[0] == ss[i] && rest[1..] == ss[i + 1..];
    if i + 1 < |ss| {
      SelectorsText(rest);
    } else {
      SelectorsOne(rest);
    }
  }

  lemma SelectorsStart(ss: seq<Selector>)
    ensures SelectorsRest(ss, 0) == Render(SelectorsItems(ss))
    ensures SelectorsRest(ss, |ss|) == ""
  {
    hide Render, SelectorsItems;
    assert ss[0..] == ss;
    EmptyItems();
  }

  /** The loop over the selectors of a segment. */
  method WriteSelectors(buf: Buffer, ss: seq<Selector>)
    modifies buf
    ensures buf.text == old(buf.text) + Render(SelectorsItems(ss))
    decreases ss, 1
  {
    hide SelectorsRest, Render, ItemText, SelectorItems, SelectorsItems;
    SelectorsStart(ss);
    ghost var start := buf.text;
    var i := 0;
    while i < |ss|
      invariant 0 <= i <= |ss|
      invariant buf.text + SelectorsRest(ss, i) == start + SelectorsRest(ss, 0)
    {
      SelectorsStep(ss, i);
      ghost var before := buf.text;
      if i > 0 {
        buf.Write(",");
      }
      WriteSelector(buf, ss[i]);
      Appended(before, if i > 0 then "," else "", Render(SelectorItems(ss[i])), SelectorsRest(ss, i + 1));
      i := i + 1;
    }
  }

  /** What remains to be written from position `i`. */
  ghost function OrRest(ss: seq<LogicalAnd>, i: nat): string {
    if i >= |ss| then "" else (if i > 0 then " || " else "") + Render(OrItems(ss[i..]))
  }

  lemma OrText(ss: seq<LogicalAnd>)
    requires |ss| > 1
    ensures Render(OrItems(ss)) == Render(AndItems(ss[0].terms)) + (" || " + Render(OrItems(ss[1..])))
  {
    hide Render, AndItems, ItemText;
    SeparatorText();
    RenderConcat(AndItems(ss[0].terms), [Joiner(T.Or)] + OrItems(ss[1..]));
    RenderCons(Joiner(T.Or), OrItems(ss[1..]));
  }

  lemma OrOne(ss: seq<LogicalAnd>)
    requires |ss| == 1
    ensures OrItems(ss) == AndItems(ss[0].terms)
  {
    hide AndItems;
  }

  lemma OrStep(ss: seq<LogicalAnd>, i: nat)
    requires i < |ss|
    ensures OrRest(ss, i) == (if i > 0 then " || " else "") + Render(AndItems(ss[i].terms)) + OrRest(ss, i + 1)
  {
    hide Render, AndItems, OrItems;
    var rest := ss[i..];
    assert rest[0] == ss[i] && rest[1..] == ss[i + 1..];
    if i + 1 < |ss| {
      OrText(rest);
    } else {
      OrOne(rest);
    }
  }

  lemma OrStart(ss: seq<LogicalAnd>)
    ensures OrRest(ss, 0) == Render(OrItems(ss))
    ensures OrRest(ss, |ss|) == ""
  {
    hide Render, OrItems;
    assert ss[0..] == ss;
    EmptyItems();
  }

  /** The loop over the alternatives of a disjunction. */
  method WriteOr(buf: Buffer, ss: seq<LogicalAnd>)
    modifies buf
    ensures buf.text == old(buf.text) + Render(OrItems(ss))
    decreases ss, 1
  {
    hide OrRest, Render, ItemText, AndItems, OrItems;
    OrStart(ss);
    ghost var start := buf.text;
    var i := 0;
    while i < |ss|
      invariant 0 <= i <= |ss|
      invariant buf.text + OrRest(ss, i) == start + OrRest(ss, 0)
    {
      OrStep(ss, i);
      ghost var before := buf.text;
      if i > 0 {
        buf.Write(" || ");
      }
      WriteAnd(buf, ss[i].terms);
      Appended(before, if i > 0 then " || " else "", Render(AndItems(ss[i].terms)), OrRest(ss, i + 1));
      i := i + 1;
    }
  }

  /** What remains to be written from position `i`. */
  ghost function AndRest(ss: seq<BasicExpr>, i: nat): string {
    if i >= |ss| then "" else (if i > 0 then " && " else "") + Render(AndItems(ss[i..]))
  }

  lemma AndText(ss: seq<BasicExpr>)
    requires |ss| > 1
    ensures Render(AndItems(ss)) == Render(BasicItems(ss[0])) + (" && " + Render(AndItems(ss[1..])))
  {
    hide Render, BasicItems, ItemText;
    SeparatorText();
    RenderConcat(BasicItems(ss[0]), [Joiner(T.And)] + AndItems(ss[1..]));
    RenderCons(Joiner(T.And), AndItems(ss[1..]));
  }

  lemma AndOne(ss: seq<BasicExpr>)
    requires |ss| == 1
    ensures AndItems(ss) == BasicItems(ss[0])
  {
    hide BasicItems;
  }

  lemma AndStep(ss: seq<BasicExpr>, i: nat)
    requires i < |ss|
    ensures AndRest(ss, i) == (if i > 0 then " && " else "") + Render(BasicItems(ss[i])) + AndRest(ss, i + 1)
  {
    hide Render, BasicItems, AndItems;
    var rest := ss[i..];
    assert rest[0] == ss[i] && rest[1..] == ss[i + 1..];
    if i + 1 < |ss| {
      AndText(rest);
    } else {
      AndOne(rest);
    }
  }

  lemma AndStart(ss: seq<BasicExpr>)
    ensures AndRest(ss, 0) == Render(AndItems(ss))
    ensures AndRest(ss, |ss|) == ""
  {
    hide Render, AndItems;
    assert ss[0..] == ss;
    EmptyItems();
  }

  /** The loop over the terms of a conjunction. */
  method WriteAnd(buf: Buffer, ss: seq<BasicExpr>)
    modifies buf
    ensures buf.text == old(buf.text) + Render(AndItems(ss))
    decreases ss, 1
  {
    hide AndRest, Render, ItemText, BasicItems, AndItems;
    AndStart(ss);
    ghost var start := buf.text;
    var i := 0;
    while i < |ss|
      invariant 0 <= i <= |ss|
      invariant buf.text + AndRest(ss, i) == start + AndRest(ss, 0)
    {
      AndStep(ss, i);
      ghost var before := buf.text;
      if i > 0 {
        buf.Write(" && ");
      }
      WriteBasic(buf, ss[i]);
      Appended(before, if i > 0 then " && " else "", Render(BasicItems(ss[i])), AndRest(ss, i + 1));
      i := i + 1;
    }
  }

  /** What remains to be written from position `i`. */
  ghost function ArgsRest(ss: seq<FuncArg>, i: nat): string {
    if i >= |ss| then "" else (if i > 0 then ", " else "") + Render(ArgsItems(ss[i..]))
  }

  lemma ArgsText(ss: seq<FuncArg>)
    requires |ss| > 1
    ensures Render(ArgsItems(ss)) == Render(ArgItems(ss[0])) + (", " + Render(ArgsItems(ss[1..])))
  {
    hide Render, ArgItems, ItemText;
    SeparatorText();
    RenderConcat(ArgItems(ss[0]), [ArgComma()] + ArgsItems(ss[1..]));
    RenderCons(ArgComma(), ArgsItems(ss[1..]));
  }

  lemma ArgsOne(ss: seq<FuncArg>)
    requires |ss| == 1
    ensures ArgsItems(ss) == ArgItems(ss[0])
  {
    hide ArgItems;
  }

  lemma ArgsStep(ss: seq<FuncArg>, i: nat)
    requires i < |ss|
    ensures ArgsRest(ss, i) == (if i > 0 then ", " else "") + Render(ArgItems(ss[i])) + ArgsRest(ss, i + 1)
  {
    hide Render, ArgItems, ArgsItems;
    var rest := ss[i..];
    assert rest[0] == ss[i] && rest[1..] == ss[i + 1..];
    if i + 1 < |ss| {
      ArgsText(rest);
    } else {
      ArgsOne(rest);
    }
  }

  lemma ArgsStart(ss: seq<FuncArg>)
    ensures ArgsRest(ss, 0) == Render(ArgsItems(ss))
    ensures ArgsRest(ss, |ss|) == ""
  {
    hide Render, ArgsItems;
    assert ss[0..] == ss;
    EmptyItems();
  }

  /** The loop over the arguments of a call. */
  method WriteArgs(buf: Buffer, ss: seq<FuncArg>)
    modifies buf
    ensures buf.text == old(buf.text) + Render(ArgsItems(ss))
    decreases ss, 1
  {
    hide ArgsRest, Render, ItemText, ArgItems, ArgsItems;
    ArgsStart(ss);
    ghost var start := buf.text;
    var i := 0;
    while i < |ss|
      invariant 0 <= i <= |ss|
      invariant buf.text + ArgsRest(ss, i) == start + ArgsRest(ss, 0)
    {
      ArgsStep(ss, i);
      ghost var before := buf.text;
      if i > 0 {
        buf.Write(", ");
      }
      WriteArg(buf, ss[i]);
      Appended(before, if i > 0 then ", " else "", Render(ArgItems(ss[i])), ArgsRest(ss, i + 1));
      i := i + 1;
    }
  }

  lemma SeparatorText()
    ensures ItemText(Plain(T.Comma)) == "," && ItemText(ArgComma()) == ", "
    ensures ItemText(Joiner(T.Or)) == " || " && ItemText(Joiner(T.And)) == " && "
  {
  }

  lemma Appended(before: string, sep: string, text: string, rest: string)
    ensures before + (sep + text + rest) == before + sep + text + rest
  {
  }

  lemma IntItemText(n: int)
    ensures Render([IntItem(n)]) == IntText(n)
  {
    hide IntText;
    RenderOne(IntItem(n));
  }

  function OptionalInt(n: Option<JsonInteger>): string {
    match n
    case None => ""
    case Some(x) => IntText(x)
  }

  lemma OptionalItem(n: Option<JsonInteger>)
    ensures Render(if n.Some? then [IntItem(n.value)] else []) == OptionalInt(n)
  {
    hide Render, IntItem;
    EmptyItems();
    if n.Some? {
      IntItemText(n.value);
    }
  }

  lemma ColonIntText(n: int)
    ensures Render([Plain(T.Colon), IntItem(n)]) == ":" + IntText(n)
  {
    hide Render, IntItem, IntText;
    IntItemText(n);
    PlainText(T.Colon);
    RenderCons(Plain(T.Colon), [IntItem(n)]);
    assert [Plain(T.Colon), IntItem(n)] == [Plain(T.Colon)] + [IntItem(n)];
  }

  lemma OptionalStep(n: Option<JsonInteger>)
    ensures Render(if n.Some? then [Plain(T.Colon), IntItem(n.value)] else [])
         == if n.Some? then ":" + OptionalInt(n) else ""
  {
    hide Render, IntItem, IntText;
    EmptyItems();
    if n.Some? {
      ColonIntText(n.value);
    }
  }

  lemma SliceText(a: SliceArgs)
    ensures Render(SliceItems(a))
         == OptionalInt(a.start) + (":" + (OptionalInt(a.end) + if a.step.Some? then ":" + OptionalInt(a.step) else ""))
  {
    hide Render, IntItem, OptionalInt;
    var tail := if a.step.Some? then [Plain(T.Colon), IntItem(a.step.value)] else [];
    var end := if a.end.Some? then [IntItem(a.end.value)] else [];
    var start := if a.start.Some? then [IntItem(a.start.value)] else [];
    OptionalItem(a.start);
    OptionalItem(a.end);
    OptionalStep(a.step);
    PlainText(T.Colon);
    RenderConcat(start, [Plain(T.Colon)] + (end + tail));
    RenderCons(Plain(T.Colon), end + tail);
    RenderConcat(end, tail);
  }

  method WriteSlice(buf: Buffer, a: SliceArgs)
    modifies buf
    ensures buf.text == old(buf.text) + Render(SliceItems(a))
  {
    hide Render, SliceItems, IntText;
    SliceText(a);
    if a.start.Some? {
      buf.Write(IntText(a.start.value));
    }
    buf.Write(":");
    if a.end.Some? {
      buf.Write(IntText(a.end.value));
    }
    if a.step.Some? {
      buf.Write(":");
      buf.Write(IntText(a.step.value));
    }
  }

  method WriteSelector(buf: Buffer, s: Selector)
    modifies buf
    ensures buf.text == old(buf.text) + Render(SelectorItems(s))
    decreases s, 0
  {
    hide Render, OrItems, SliceItems, IntText, IntItem, Quoted, Plain, Quotation;
    match s {
      case Name(name) =>
        StringItemText(name);
        WriteQuoted(buf, name, '"');
      case Index(index) =>
        IntItemText(index);
        buf.Write(IntText(index));
      case Slice(args) =>
        WriteSlice(buf, args);
      case Wildcard =>
        StarText();
        buf.Write("*");
      case Filter(expr) =>
        WriteFilter(buf, expr);
    }
  }

  lemma StarText()
    ensures Render([Plain(T.Star)]) == "*"
  {
    hide Render;
    RenderOne(Plain(T.Star));
  }

  method WriteFilter(buf: Buffer, expr: LogicalOr)
    modifies buf
    ensures buf.text == old(buf.text) + Render([Plain(T.Question)] + OrItems(expr))
    decreases expr, 2
  {
    hide Render, OrItems;
    PlainText(T.Question);
    RenderCons(Plain(T.Question), OrItems(expr));
    buf.Write("?");
    WriteOr(buf, expr);
  }

  lemma StringItemText(s: string)
    ensures Render([Quotation(s, '"')]) == Quoted(s, '"')
  {
    hide Quoted;
    RenderOne(Quotation(s, '"'));
  }

  lemma NegatedText(xs: seq<Item>)
    ensures Render([Plain(T.Not)] + xs) == "!" + Render(xs)
  {
    hide Render, ItemText;
    PlainText(T.Not);
    RenderCons(Plain(T.Not), xs);
  }

  lemma ComparisonText(l: seq<Item>, op: CompOp, r: seq<Item>)
    ensures Render(l + ([Joiner(OpKind(op))] + r)) == Render(l) + ((" " + OpText(op) + " ") + Render(r))
  {
    hide Render, ItemText;
    PlainText(OpKind(op));
    RenderConcat(l, [Joiner(OpKind(op))] + r);
    RenderCons(Joiner(OpKind(op)), r);
  }

  method WriteBasic(buf: Buffer, e: BasicExpr)
    modifies buf
    ensures buf.text == old(buf.text) + Render(BasicItems(e))
    decreases e, 1
  {
    hide Render, OrItems, QueryItems, CallItems, ComparandItems, Plain, Joiner, OpText, OpKind;
    match e {
      case Exist(q) => WriteQuery(buf, q);
      case NonExist(q) => WriteNonExist(buf, q);
      case Paren(or) => WriteParen(buf, or);
      case NotParen(or) => WriteNotParen(buf, or);
      case Func(f) => WriteCall(buf, f);
      case NegFunc(f) => WriteNegFunc(buf, f);
      case Comp(l, op, r) => WriteComp(buf, l, op, r);
    }
  }

  method WriteNonExist(buf: Buffer, q: PathQuery)
    modifies buf
    ensures buf.text == old(buf.text) + Render([Plain(T.Not)] + QueryItems(q))
    decreases q, 1
  {
    hide Render, QueryItems, Plain;
    NegatedText(QueryItems(q));
    buf.Write("!");
    WriteQuery(buf, q);
  }

  method WriteNegFunc(buf: Buffer, f: FuncExpr)
    modifies buf
    ensures buf.text == old(buf.text) + Render([Plain(T.Not)] + CallItems(f))
    decreases f, 1
  {
    hide Render, CallItems, Plain;
    NegatedText(CallItems(f));
    buf.Write("!");
    WriteCall(buf, f);
  }

  method WriteNotParen(buf: Buffer, or: LogicalOr)
    modifies buf
    ensures buf.text == old(buf.text)
            + Render([Plain(T.Not)] + ([Plain(T.LeftParen)] + (OrItems(or) + [Plain(T.RightParen)])))
    decreases or, 3
  {
    hide Render, OrItems, Plain;
    NegatedText([Plain(T.LeftParen)] + (OrItems(or) + [Plain(T.RightParen)]));
    buf.Write("!");
    WriteParen(buf, or);
  }

  method WriteComp(buf: Buffer, l: CompValue, op: CompOp, r: CompValue)
    modifies buf
    ensures buf.text == old(buf.text) + Render(ComparandItems(l) + ([Joiner(OpKind(op))] + ComparandItems(r)))
    decreases Comp(l, op, r), 0
  {
    hide Render, ComparandItems, Joiner, OpText, OpKind;
    ComparisonText(ComparandItems(l), op, ComparandItems(r));
    WriteComparand(buf, l);
    buf.Write(" " + OpText(op) + " ");
    WriteComparand(buf, r);
  }

  method WriteParen(buf: Buffer, or: LogicalOr)
    modifies buf
    ensures buf.text == old(buf.text) + Render([Plain(T.LeftParen)] + (OrItems(or) + [Plain(T.RightParen)]))
    decreases or, 2
  {
    hide Render, OrItems, Plain;
    ParensText(or);
    buf.Write("(");
    WriteOr(buf, or);
    buf.Write(")");
  }

  lemma ParensText(or: LogicalOr)
    ensures Render([Plain(T.LeftParen)] + (OrItems(or) + [Plain(T.RightParen)])) == "(" + Render(OrItems(or)) + ")"
  {
    hide Render, OrItems, Plain;
    EnclosedText(OrItems(or));
  }

  function OpText(op: CompOp): string {
    match op
    case Equal => "=="
    case NotEqual => "!="
    case Less => "<"
    case LessEqual => "<="
    case Greater => ">"
    case GreaterEqual => ">="
  }

  function LiteralText(l: Literal): string {
    match l
    case StringLiteral(s) => Quoted(s, '"')
    case NumberLiteral(text) => text
    case BoolLiteral(b) => if b then "true" else "false"
    case NullLiteral => "null"
  }

  lemma LiteralItemText(l: Literal)
    ensures Render([LiteralItem(l)]) == LiteralText(l)
  {
    hide Render, Quoted, ScanNumber;
    RenderOne(LiteralItem(l));
  }

  method WriteLiteral(buf: Buffer, l: Literal)
    modifies buf
    ensures buf.text == old(buf.text) + Render([LiteralItem(l)])
  {
    hide Render, LiteralItem, Quoted;
    LiteralItemText(l);
    match l {
      case StringLiteral(s) =>
        WriteQuoted(buf, s, '"');
      case NumberLiteral(text) =>
        buf.Write(text);
      case BoolLiteral(b) =>
        buf.Write(if b then "true" else "false");
      case NullLiteral =>
        buf.Write("null");
    }
  }

  method WriteComparand(buf: Buffer, v: CompValue)
    modifies buf
    ensures buf.text == old(buf.text) + Render(ComparandItems(v))
    decreases v, 0
  {
    hide Render, ItemText, QueryItems, CallItems, LiteralItem;
    match v {
      case LiteralValue(l) => WriteLiteral(buf, l);
      case QueryValue(q) => WriteQuery(buf, q);
      case FuncValue(f) => WriteCall(buf, f);
    }
  }

  method WriteCall(buf: Buffer, f: FuncExpr)
    modifies buf
    ensures buf.text == old(buf.text) + Render(CallItems(f))
    decreases f, 0
  {
    hide Render, ArgsItems, CallItems;
    CallText(f);
    buf.Write(f.name);
    buf.Write("(");
    WriteArgs(buf, f.args);
    buf.Write(")");
  }

  lemma EnclosedText(args: seq<Item>)
    ensures Render([Plain(T.LeftParen)] + (args + [Plain(T.RightParen)])) == "(" + (Render(args) + ")")
  {
    hide Render, ItemText;
    PlainText(T.LeftParen);
    PlainText(T.RightParen);
    RenderCons(Plain(T.LeftParen), args + [Plain(T.RightParen)]);
    RenderConcat(args, [Plain(T.RightParen)]);
    RenderOne(Plain(T.RightParen));
  }

  lemma CallText(f: FuncExpr)
    ensures Render(CallItems(f)) == f.name + ("(" + (Render(ArgsItems(f.args)) + ")"))
  {
    hide Render, ItemText, ArgsItems, Plain, Worded;
    NameText(f.name);
    EnclosedText(ArgsItems(f.args));
    RenderCons(Worded(T.Ident, f.name), [Plain(T.LeftParen)] + (ArgsItems(f.args) + [Plain(T.RightParen)]));
  }

  lemma NameText(name: string)
    ensures ItemText(Worded(T.Ident, name)) == name
  {
  }

  method WriteArg(buf: Buffer, a: FuncArg)
    modifies buf
    ensures buf.text == old(buf.text) + Render(ArgItems(a))
    decreases a, 0
  {
    hide Render, ItemText, QueryItems, CallItems, OrItems, LiteralItem;
    match a.source {
      case LiteralArg(l) => WriteLiteral(buf, l);
      case QueryArg(q) => WriteQuery(buf, q);
      case LogicalArg(or) => WriteOr(buf, or);
      case FunctionArg(f) => WriteCall(buf, f);
    }
  }

  /** The canonical text of a query. */
  method QueryString(q: PathQuery) returns (text: string)
    ensures text == Print(q)
  {
    var buf := new Buffer();
    WriteQuery(buf, q);
    text := buf.text;
  }
}
