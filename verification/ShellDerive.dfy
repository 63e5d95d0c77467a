/**
 The grammar of the shell as productions: a derivation says which tokens it stands for and which command it means.
 The parser accepts exactly the lines that have a derivation, and returns what that derivation means.

   line     = pipeline { "&" } [ ";" line ]
   pipeline = command [ "|" pipeline ]
   command  = { word | redirection }            with fewer than MAXARGS words
            | "(" line ")" { redirection }
   redirection = ( "<" | ">" | ">>" ) word
 */
module ShellDerive {
  import opened ShellLex
  import opened ShellGrammar

  datatype Item = Arg(w: string) | Into(op: Tok, file: string)

  datatype CommandD = Simple(items: seq<Item>) | Group(inner: LineD, redirs: seq<Item>)

  datatype PipelineD = One(cmd: CommandD) | Piped(cmd: CommandD, next: PipelineD)

  datatype LineD = Last(pipe: PipelineD, amps: nat) | Then(pipe: PipelineD, amps: nat, next: LineD)

  // ----- what a derivation stands for

  function ItemToks(x: Item): seq<Tok> {
    match x
    case Arg(w) => [Word(w)]
    case Into(op, file) => [op, Word(file)]
  }

  function Toks(items: seq<Item>): seq<Tok> {
    if items == [] then [] else ItemToks(items[0]) + Toks(items[1..])
  }

  function Amps(n: nat): seq<Tok> {
    seq(n, _ => Sym('&'))
  }

  function CommandToks(c: CommandD): seq<Tok> {
    match c
    case Simple(items) => Toks(items)
    case Group(inner, redirs) => [Sym('(')] + LineToks(inner) + [Sym(')')] + Toks(redirs)
  }

  function PipelineToks(p: PipelineD): seq<Tok> {
    match p
    case One(c) => CommandToks(c)
    case Piped(c, next) => CommandToks(c) + [Sym('|')] + PipelineToks(next)
  }

  function LineToks(l: LineD): seq<Tok> {
    match l
    case Last(p, n) => PipelineToks(p) + Amps(n)
    case Then(p, n, next) => PipelineToks(p) + Amps(n) + [Sym(';')] + LineToks(next)
  }

  // ----- what it means

  function ArgsOf(items: seq<Item>): seq<string> {
    if items == [] then []
    else (if items[0].Arg? then [items[0].w] else []) + ArgsOf(items[1..])
  }

  /** The redirections in order, the first one innermost. */
  function Redirected(t: Tree, items: seq<Item>): Tree
    decreases items
  {
    if items == [] then t
    else
      match items[0]
      case Arg(_) => Redirected(t, items[1..])
      case Into(op, file) =>
        if op == Sym('<') then Redirected(Redir(t, file, O_RDONLY, 0), items[1..])
        else if op == Sym('>') then Redirected(Redir(t, file, O_WRONLY_CREATE, 1), items[1..])
        else Redirected(Redir(t, file, O_WRONLY_CREATE, 1), items[1..])
  }

  function Backed(t: Tree, n: nat): Tree {
    if n == 0 then t else Back(Backed(t, n - 1))
  }

  function CommandMeans(c: CommandD): Tree {
    match c
    case Simple(items) => Redirected(Exec(ArgsOf(items)), items)
    case Group(inner, redirs) => Redirected(LineMeans(inner), redirs)
  }

  function PipelineMeans(p: PipelineD): Tree {
    match p
    case One(c) => CommandMeans(c)
    case Piped(c, next) => Pipe(CommandMeans(c), PipelineMeans(next))
  }

  function LineMeans(l: LineD): Tree {
    match l
    case Last(p, n) => Backed(PipelineMeans(p), n)
    case Then(p, n, next) => List(Backed(PipelineMeans(p), n), LineMeans(next))
  }

  // ----- well-formed derivations

  predicate ItemOk(x: Item) {
    match x
    case Arg(w) => IsWord(w)
    case Into(op, file) => (op == Sym('<') || op == Sym('>') || op == Append) && IsWord(file)
  }

  predicate ItemsOk(items: seq<Item>) {
    forall k | 0 <= k < |items| :: ItemOk(items[k])
  }

  predicate OnlyRedirs(items: seq<Item>) {
    forall k | 0 <= k < |items| :: items[k].Into?
  }

  predicate CommandOk(c: CommandD) {
    match c
    case Simple(items) => ItemsOk(items) && |ArgsOf(items)| < MAXARGS
    case Group(inner, redirs) => LineOk(inner) && ItemsOk(redirs) && OnlyRedirs(redirs)
  }

  predicate PipelineOk(p: PipelineD) {
    match p
    case One(c) => CommandOk(c)
    case Piped(c, next) => CommandOk(c) && PipelineOk(next)
  }

  predicate LineOk(l: LineD) {
    match l
    case Last(p, _) => PipelineOk(p)
    case Then(p, _, next) => PipelineOk(p) && LineOk(next)
  }

  /** The tokens are a line that means `t`. */
  ghost predicate Derives(ts: seq<Tok>, t: Tree) {
    exists l :: LineOk(l) && LineToks(l) == ts && LineMeans(l) == t
  }

  // ----- redirections

  /** The redirections in front. */
  function Lead(items: seq<Item>): (n: nat)
    ensures n <= |items| && OnlyRedirs(items[..n]) && (n < |items| ==> items[n].Arg?)
  {
    if items == [] || items[0].Arg? then 0
    else
      var n := 1 + Lead(items[1..]);
      assert forall k | 0 < k < n :: items[k] == items[1..][k - 1];
      n
  }

  function WrapsOf(items: seq<Item>): seq<Wrap> {
    if items == [] then []
    else
      match items[0]
      case Arg(_) => WrapsOf(items[1..])
      case Into(op, file) => [WrapOf(Code(op), file)] + WrapsOf(items[1..])
  }

  lemma {:induction false} RedirectedIs(t: Tree, items: seq<Item>)
    requires ItemsOk(items)
    ensures Redirected(t, items) == Wrapped(t, WrapsOf(items))
    decreases items
  {
    if items != [] {
      var rest := items[1..];
      match items[0] {
        case Arg(_) => RedirectedIs(t, rest);
        case Into(op, file) =>
          var w := WrapOf(Code(op), file);
          assert ItemOk(items[0]);
          assert ([w] + WrapsOf(rest))[1..] == WrapsOf(rest);
          RedirectedIs(Redir(t, file, w.mode, w.fd), rest);
      }
    }
  }

  lemma RedirStep(op: Tok, file: string, ts: seq<Tok>)
    requires ItemOk(Into(op, file)) && Redirs(ts).Ok?
    ensures Redirs([op, Word(file)] + ts) == Ok([WrapOf(Code(op), file)] + Redirs(ts).value, Redirs(ts).rest)
  {
    var all := [op, Word(file)] + ts;
    assert all[0] == op && all[1] == Word(file) && all[2..] == ts;
  }

  lemma ToksStep(items: seq<Item>, rest: seq<Tok>)
    requires items != []
    ensures Toks(items) + rest == ItemToks(items[0]) + (Toks(items[1..]) + rest)
  {
  }

  lemma WordFirst(w: string, rest: seq<Tok>)
    requires IsWord(w)
    ensures var ts := [Word(w)] + rest; !StartsRedir(ts) && !StartsEnd(ts) && !Starts(ts, '(')
  {
    assert WordChar(w[0]);
  }

  lemma {:induction false} LeadParsed(items: seq<Item>, rest: seq<Tok>)
    requires ItemsOk(items) && !StartsRedir(rest)
    ensures Redirs(Toks(items) + rest) == Ok(WrapsOf(items[..Lead(items)]), Toks(items[Lead(items)..]) + rest)
  {
    if items == [] {
      assert Toks(items) + rest == rest;
    } else {
      var more, n := items[1..], Lead(items);
      ToksStep(items, rest);
      assert ItemOk(items[0]);
      if items[0].Arg? {
        WordFirst(items[0].w, Toks(more) + rest);
      } else {
        LeadParsed(more, rest);
        RedirStep(items[0].op, items[0].file, Toks(more) + rest);
        assert items[..n][1..] == more[..n - 1] && items[n..] == more[n - 1..];
      }
    }
  }

  // ----- every derivation is parsed

  lemma Regroup<T>(a: seq<T>, b: seq<T>, c: seq<T>)
    ensures a + b + c == a + (b + c)
  {
  }

  lemma Nothing<T>(a: seq<T>)
    ensures [] + a == a && a + [] == a
  {
  }

  lemma Front(a: seq<Item>, b: seq<Item>)
    requires a != []
    ensures (a + b)[0] == a[0] && (a + b)[1..] == a[1..] + b
  {
  }

  lemma {:induction false} ToksJoin(a: seq<Item>, b: seq<Item>)
    ensures Toks(a + b) == Toks(a) + Toks(b)
  {
    if a == [] {
      assert a + b == b;
    } else {
      Front(a, b);
      ToksJoin(a[1..], b);
      Regroup(ItemToks(a[0]), Toks(a[1..]), Toks(b));
    }
  }

  lemma {:induction false} ArgsJoin(a: seq<Item>, b: seq<Item>)
    ensures ArgsOf(a + b) == ArgsOf(a) + ArgsOf(b)
  {
    if a == [] {
      assert a + b == b;
    } else {
      Front(a, b);
      ArgsJoin(a[1..], b);
      Regroup(if a[0].Arg? then [a[0].w] else [], ArgsOf(a[1..]), ArgsOf(b));
    }
  }

  lemma {:induction false} WrapsJoin(a: seq<Item>, b: seq<Item>)
    ensures WrapsOf(a + b) == WrapsOf(a) + WrapsOf(b)
  {
    if a == [] {
      assert a + b == b;
    } else {
      Front(a, b);
      WrapsJoin(a[1..], b);
      if a[0].Into? {
        Regroup([WrapOf(Code(a[0].op), a[0].file)], WrapsOf(a[1..]), WrapsOf(b));
      }
    }
  }

  lemma Joined(a: seq<Item>, b: seq<Item>)
    ensures Toks(a + b) == Toks(a) + Toks(b)
    ensures WrapsOf(a + b) == WrapsOf(a) + WrapsOf(b)
    ensures ArgsOf(a + b) == ArgsOf(a) + ArgsOf(b)
  {
    ToksJoin(a, b);
    WrapsJoin(a, b);
    ArgsJoin(a, b);
  }

  lemma MeansSplit(items: seq<Item>, n: nat)
    requires n <= |items|
    ensures WrapsOf(items) == WrapsOf(items[..n]) + WrapsOf(items[n..])
    ensures ArgsOf(items) == ArgsOf(items[..n]) + ArgsOf(items[n..])
  {
    assert items == items[..n] + items[n..];
    Joined(items[..n], items[n..]);
  }

  lemma {:induction false} NoArgs(items: seq<Item>)
    requires OnlyRedirs(items)
    ensures ArgsOf(items) == []
  {
    if items != [] {
      NoArgs(items[1..]);
    }
  }

  predicate EndsWords(ts: seq<Tok>) {
    ts == [] || StartsEnd(ts)
  }

  lemma ItemsOkFrom(items: seq<Item>, n: nat)
    requires ItemsOk(items) && items != [] && n < |items|
    ensures ItemsOk(items[1..]) && ItemsOk(items[1..][n..])
  {
  }

  /** One turn of the loop of parseexec. */
  lemma ArgsStep(args: seq<string>, wraps: seq<Wrap>, w: string, ts: seq<Tok>)
    requires IsWord(w) && |args| + 1 < MAXARGS && Redirs(ts).Ok?
    ensures Args(args, wraps, [Word(w)] + ts) == Args(args + [w], wraps + Redirs(ts).value, Redirs(ts).rest)
  {
    WordFirst(w, ts);
    assert ([Word(w)] + ts)[1..] == ts;
  }

  /** A word and the redirections that follow it. */
  lemma HeadMeans(items: seq<Item>, n: nat)
    requires items != [] && items[0].Arg? && n == Lead(items[1..])
    ensures ArgsOf(items) == [items[0].w] + ArgsOf(items[1..][n..])
    ensures WrapsOf(items) == WrapsOf(items[1..][..n]) + WrapsOf(items[1..][n..])
  {
    var more := items[1..];
    MeansSplit(more, n);
    NoArgs(more[..n]);
  }

  lemma {:induction false} ArgsParsed(args: seq<string>, wraps: seq<Wrap>, items: seq<Item>, rest: seq<Tok>)
    requires ItemsOk(items) && EndsWords(rest) && (items != [] ==> items[0].Arg?)
    requires |args| + |ArgsOf(items)| < MAXARGS
    ensures Args(args, wraps, Toks(items) + rest)
         == Ok(Wrapped(Exec(args + ArgsOf(items)), wraps + WrapsOf(items)), rest)
    decreases |items|
  {
    if items == [] {
      Nothing(rest);
      Nothing(args);
      Nothing(wraps);
    } else {
      var w, more, n := items[0].w, items[1..], Lead(items[1..]);
      assert ItemOk(items[0]);
      HeadMeans(items, n);
      ItemsOkFrom(items, n);
      ArgsParsed(args + [w], wraps + WrapsOf(more[..n]), more[n..], rest);
      LeadParsed(more, rest);
      ArgsStep(args, wraps, w, Toks(more) + rest);
      ToksStep(items, rest);
      Regroup(args, [w], ArgsOf(more[n..]));
      Regroup(wraps, WrapsOf(more[..n]), WrapsOf(more[n..]));
    }
  }

  lemma NoParen(items: seq<Item>, rest: seq<Tok>)
    requires ItemsOk(items) && EndsWords(rest)
    ensures !Starts(Toks(items) + rest, '(')
  {
    if items == [] {
      assert Toks(items) + rest == rest;
      assert '(' != '|' && '(' != ')' && '(' != '&' && '(' != ';';
    } else {
      ToksStep(items, rest);
      assert ItemOk(items[0]);
      if items[0].Arg? {
        WordFirst(items[0].w, Toks(items[1..]) + rest);
      }
    }
  }

  lemma SimpleParsed(items: seq<Item>, rest: seq<Tok>)
    requires CommandOk(Simple(items)) && EndsWords(rest)
    ensures Command(Toks(items) + rest) == Ok(CommandMeans(Simple(items)), rest)
  {
    var n := Lead(items);
    NoParen(items, rest);
    LeadParsed(items, rest);
    MeansSplit(items, n);
    NoArgs(items[..n]);
    assert ItemsOk(items[n..]);
    ArgsParsed([], WrapsOf(items[..n]), items[n..], rest);
    RedirectedIs(Exec(ArgsOf(items)), items);
  }

  predicate EndsPipe(ts: seq<Tok>) {
    ts == [] || Starts(ts, ')') || Starts(ts, '&') || Starts(ts, ';')
  }

  predicate EndsLine(ts: seq<Tok>) {
    ts == [] || Starts(ts, ')')
  }

  lemma Prefixed(x: Tok, ts: seq<Tok>)
    ensures ([x] + ts)[0] == x && ([x] + ts)[1..] == ts
  {
  }

  lemma RedirsParsed(items: seq<Item>, rest: seq<Tok>)
    requires ItemsOk(items) && OnlyRedirs(items) && !StartsRedir(rest)
    ensures Redirs(Toks(items) + rest) == Ok(WrapsOf(items), rest)
  {
    LeadParsed(items, rest);
    assert Lead(items) == |items|;
    assert items[..|items|] == items && items[|items|..] == [];
    assert [] + rest == rest;
  }

  lemma GroupShape(inner: LineD, redirs: seq<Item>, rest: seq<Tok>)
    ensures CommandToks(Group(inner, redirs)) + rest
         == [Sym('(')] + (LineToks(inner) + ([Sym(')')] + (Toks(redirs) + rest)))
  {
  }

  lemma BlockStep(body: seq<Tok>, after: seq<Tok>)
    requires Line(body).Ok? && Line(body).rest == [Sym(')')] + after && Redirs(after).Ok?
    ensures Command([Sym('(')] + body) == Ok(Wrapped(Line(body).value, Redirs(after).value), Redirs(after).rest)
  {
    Prefixed(Sym('('), body);
    Prefixed(Sym(')'), after);
  }

  lemma GroupParsed(inner: LineD, redirs: seq<Item>, rest: seq<Tok>)
    requires CommandOk(Group(inner, redirs)) && EndsWords(rest)
    ensures Command(CommandToks(Group(inner, redirs)) + rest) == Ok(CommandMeans(Group(inner, redirs)), rest)
    decreases Group(inner, redirs), 0
  {
    var after := Toks(redirs) + rest;
    LineParsed(inner, [Sym(')')] + after);
    RedirsParsed(redirs, rest);
    RedirectedIs(LineMeans(inner), redirs);
    GroupShape(inner, redirs, rest);
    BlockStep(LineToks(inner) + ([Sym(')')] + after), after);
  }

  lemma CommandParsed(c: CommandD, rest: seq<Tok>)
    requires CommandOk(c) && EndsWords(rest)
    ensures Command(CommandToks(c) + rest) == Ok(CommandMeans(c), rest)
    decreases c, 1
  {
    match c {
      case Simple(items) => SimpleParsed(items, rest);
      case Group(inner, redirs) => GroupParsed(inner, redirs, rest);
    }
  }

  lemma PipedShape(c: CommandD, next: PipelineD, rest: seq<Tok>)
    ensures PipelineToks(Piped(c, next)) + rest == CommandToks(c) + ([Sym('|')] + (PipelineToks(next) + rest))
  {
  }

  lemma PipeStep(ts: seq<Tok>, more: seq<Tok>)
    requires Command(ts).Ok? && Command(ts).rest == [Sym('|')] + more && Pipeline(more).Ok?
    ensures Pipeline(ts) == Ok(Pipe(Command(ts).value, Pipeline(more).value), Pipeline(more).rest)
  {
    Prefixed(Sym('|'), more);
  }

  lemma PipelineParsed(p: PipelineD, rest: seq<Tok>)
    requires PipelineOk(p) && EndsPipe(rest)
    ensures Pipeline(PipelineToks(p) + rest) == Ok(PipelineMeans(p), rest)
    decreases p
  {
    match p {
      case One(c) => CommandParsed(c, rest);
      case Piped(c, next) =>
        var more := PipelineToks(next) + rest;
        CommandParsed(c, [Sym('|')] + more);
        PipelineParsed(next, rest);
        PipedShape(c, next, rest);
        PipeStep(PipelineToks(p) + rest, more);
    }
  }

  lemma {:induction false} BackedStep(t: Tree, n: nat)
    ensures Backed(Back(t), n) == Back(Backed(t, n))
  {
    if n > 0 {
      BackedStep(t, n - 1);
    }
  }

  lemma {:induction false} BacksParsed(t: Tree, n: nat, rest: seq<Tok>)
    requires !Starts(rest, '&')
    ensures Backs(t, Amps(n) + rest) == (Backed(t, n), rest)
    decreases n
  {
    if n == 0 {
      assert Amps(n) + rest == rest;
    } else {
      Prefixed(Sym('&'), Amps(n - 1) + rest);
      assert Amps(n) + rest == [Sym('&')] + (Amps(n - 1) + rest);
      BacksParsed(Back(t), n - 1, rest);
      BackedStep(t, n - 1);
    }
  }

  lemma AmpsEnd(n: nat, rest: seq<Tok>)
    requires EndsPipe(rest)
    ensures EndsPipe(Amps(n) + rest)
  {
    if n == 0 {
      assert Amps(n) + rest == rest;
    }
  }

  lemma ThenShape(p: PipelineD, n: nat, next: LineD, rest: seq<Tok>)
    ensures LineToks(Then(p, n, next)) + rest == PipelineToks(p) + (Amps(n) + ([Sym(';')] + (LineToks(next) + rest)))
  {
  }

  lemma LineStep(ts: seq<Tok>, more: seq<Tok>)
    requires Pipeline(ts).Ok? && Backs(Pipeline(ts).value, Pipeline(ts).rest).1 == [Sym(';')] + more && Line(more).Ok?
    ensures Line(ts)
         == Ok(List(Backs(Pipeline(ts).value, Pipeline(ts).rest).0, Line(more).value), Line(more).rest)
  {
    Prefixed(Sym(';'), more);
  }

  lemma LineParsed(l: LineD, rest: seq<Tok>)
    requires LineOk(l) && EndsLine(rest)
    ensures Line(LineToks(l) + rest) == Ok(LineMeans(l), rest)
    decreases l
  {
    var p, n := l.pipe, l.amps;
    var after := if l.Last? then rest else [Sym(';')] + (LineToks(l.next) + rest);
    AmpsEnd(n, after);
    PipelineParsed(p, Amps(n) + after);
    BacksParsed(PipelineMeans(p), n, after);
    if l.Then? {
      LineParsed(l.next, rest);
      ThenShape(p, n, l.next, rest);
      LineStep(LineToks(l) + rest, LineToks(l.next) + rest);
    } else {
      Regroup(PipelineToks(p), Amps(n), rest);
    }
  }

  // ----- whatever is parsed has a derivation

  lemma OperatorIs(t: Tok)
    requires TokOk(t) && (First(t) == '<' || First(t) == '>')
    ensures t == Sym('<') || t == Sym('>') || t == Append
  {
    assert t.Word? ==> WordChar(t.w[0]);
  }

  lemma SymbolIs(t: Tok, c: char)
    requires TokOk(t) && First(t) == c && Symbol(c) && c != '>'
    ensures t == Sym(c)
  {
    assert t.Word? ==> WordChar(t.w[0]);
  }

  lemma Suffix(pre: seq<Tok>, rest: seq<Tok>)
    requires ToksOk(pre + rest)
    ensures ToksOk(rest)
  {
    assert forall k | 0 <= k < |rest| :: rest[k] == (pre + rest)[|pre| + k];
  }

  lemma Head(ts: seq<Tok>, c: char)
    requires ToksOk(ts) && Starts(ts, c) && Symbol(c) && c != '>'
    ensures ts[0] == Sym(c) && ToksOk(ts[1..]) && ts == [Sym(c)] + ts[1..]
  {
    SymbolIs(ts[0], c);
    assert ts == [ts[0]] + ts[1..];
  }

  lemma RedirFront(op: Tok, file: string, more: seq<Item>)
    requires ItemOk(Into(op, file)) && ItemsOk(more) && OnlyRedirs(more)
    ensures var items := [Into(op, file)] + more;
      && ItemsOk(items) && OnlyRedirs(items)
      && Toks(items) == [op, Word(file)] + Toks(more) && WrapsOf(items) == [WrapOf(Code(op), file)] + WrapsOf(more)
  {
    assert ([Into(op, file)] + more)[1..] == more;
  }

  lemma HeadWord(ts: seq<Tok>)
    requires ToksOk(ts) && ts != [] && ts[0].Word?
    ensures IsWord(ts[0].w) && ToksOk(ts[1..]) && ts == [Word(ts[0].w)] + ts[1..]
  {
    assert TokOk(ts[0]) && ts == [ts[0]] + ts[1..];
  }

  lemma {:induction false} RedirsSound(ts: seq<Tok>) returns (items: seq<Item>)
    requires ToksOk(ts) && Redirs(ts).Ok?
    ensures ItemsOk(items) && OnlyRedirs(items)
    ensures ts == Toks(items) + Redirs(ts).rest && Redirs(ts).value == WrapsOf(items)
    decreases |ts|
  {
    if !StartsRedir(ts) {
      items := [];
      assert ts == [] + ts;
    } else {
      OperatorIs(ts[0]);
      assert TokOk(ts[1]);
      var more := RedirsSound(ts[2..]);
      items := [Into(ts[0], ts[1].w)] + more;
      RedirFront(ts[0], ts[1].w, more);
      Regroup([ts[0], ts[1]], Toks(more), Redirs(ts).rest);
    }
  }

  lemma ItemsOkJoin(w: string, redirs: seq<Item>, more: seq<Item>)
    requires IsWord(w) && ItemsOk(redirs) && ItemsOk(more)
    ensures ItemsOk([Arg(w)] + (redirs + more))
  {
  }

  /** A word, the redirections after it, and the items after those. */
  lemma ItemsShape(w: string, redirs: seq<Item>, more: seq<Item>, rest: seq<Tok>)
    requires OnlyRedirs(redirs)
    ensures var items := [Arg(w)] + (redirs + more);
      && Toks(items) + rest == [Word(w)] + (Toks(redirs) + (Toks(more) + rest))
      && ArgsOf(items) == [w] + ArgsOf(more) && WrapsOf(items) == WrapsOf(redirs) + WrapsOf(more)
  {
    var items := [Arg(w)] + (redirs + more);
    assert items[1..] == redirs + more;
    Joined(redirs, more);
    NoArgs(redirs);
    Regroup([Word(w)], Toks(redirs) + Toks(more), rest);
    Regroup(Toks(redirs), Toks(more), rest);
  }

  lemma {:induction false} ArgsSound(args: seq<string>, wraps: seq<Wrap>, ts: seq<Tok>) returns (items: seq<Item>)
    requires ToksOk(ts) && |args| < MAXARGS && Args(args, wraps, ts).Ok?
    ensures ItemsOk(items) && |args| + |ArgsOf(items)| < MAXARGS
    ensures ts == Toks(items) + Args(args, wraps, ts).rest
    ensures Args(args, wraps, ts).value == Wrapped(Exec(args + ArgsOf(items)), wraps + WrapsOf(items))
    decreases |ts|
  {
    if StartsEnd(ts) || ts == [] {
      items := [];
      Nothing(ts);
      Nothing(args);
      Nothing(wraps);
    } else {
      HeadWord(ts);
      var w, rest := ts[0].w, Redirs(ts[1..]).rest;
      var redirs := RedirsSound(ts[1..]);
      Suffix(Toks(redirs), rest);
      var more := ArgsSound(args + [w], wraps + WrapsOf(redirs), rest);
      items := [Arg(w)] + (redirs + more);
      ItemsOkJoin(w, redirs, more);
      ItemsShape(w, redirs, more, Args(args, wraps, ts).rest);
      Regroup(args, [w], ArgsOf(more));
      Regroup(wraps, WrapsOf(redirs), WrapsOf(more));
    }
  }

  lemma {:induction false} SimpleSound(ts: seq<Tok>) returns (items: seq<Item>)
    requires ToksOk(ts) && !Starts(ts, '(') && Command(ts).Ok?
    ensures CommandOk(Simple(items)) && ts == Toks(items) + Command(ts).rest
    ensures Command(ts).value == CommandMeans(Simple(items))
  {
    var redirs := RedirsSound(ts);
    Suffix(Toks(redirs), Redirs(ts).rest);
    var more := ArgsSound([], WrapsOf(redirs), Redirs(ts).rest);
    items := redirs + more;
    Joined(redirs, more);
    NoArgs(redirs);
    Regroup(Toks(redirs), Toks(more), Command(ts).rest);
    RedirectedIs(Exec(ArgsOf(items)), items);
  }

  lemma {:induction false} GroupSound(ts: seq<Tok>) returns (c: CommandD)
    requires ToksOk(ts) && Starts(ts, '(') && Block(ts).Ok?
    ensures CommandOk(c) && ts == CommandToks(c) + Block(ts).rest && Block(ts).value == CommandMeans(c)
    decreases |ts|, 0
  {
    Head(ts, '(');
    var inner := LineSound(ts[1..]);
    var close := Line(ts[1..]).rest;
    Suffix(LineToks(inner), close);
    Head(close, ')');
    var redirs := RedirsSound(close[1..]);
    RedirectedIs(LineMeans(inner), redirs);
    c := Group(inner, redirs);
    GroupShape(inner, redirs, Block(ts).rest);
  }

  lemma {:induction false} CommandSound(ts: seq<Tok>) returns (c: CommandD)
    requires ToksOk(ts) && Command(ts).Ok?
    ensures CommandOk(c) && ts == CommandToks(c) + Command(ts).rest && Command(ts).value == CommandMeans(c)
    decreases |ts|, 1
  {
    if Starts(ts, '(') {
      c := GroupSound(ts);
    } else {
      var items := SimpleSound(ts);
      c := Simple(items);
    }
  }

  lemma {:induction false} PipelineSound(ts: seq<Tok>) returns (p: PipelineD)
    requires ToksOk(ts) && Pipeline(ts).Ok?
    ensures PipelineOk(p) && ts == PipelineToks(p) + Pipeline(ts).rest && Pipeline(ts).value == PipelineMeans(p)
    decreases |ts|, 2
  {
    var c := CommandSound(ts);
    var after := Command(ts).rest;
    Suffix(CommandToks(c), after);
    if Starts(after, '|') {
      Head(after, '|');
      var next := PipelineSound(after[1..]);
      p := Piped(c, next);
      PipedShape(c, next, Pipeline(ts).rest);
    } else {
      p := One(c);
    }
  }

  lemma {:induction false} BacksSound(t: Tree, ts: seq<Tok>) returns (n: nat)
    requires ToksOk(ts)
    ensures ts == Amps(n) + Backs(t, ts).1 && Backs(t, ts).0 == Backed(t, n)
    decreases |ts|
  {
    if Starts(ts, '&') {
      Head(ts, '&');
      var m := BacksSound(Back(t), ts[1..]);
      BackedStep(t, m);
      n := m + 1;
      assert Amps(n) == [Sym('&')] + Amps(m);
      Regroup([Sym('&')], Amps(m), Backs(t, ts).1);
    } else {
      n := 0;
      assert Amps(0) + ts == ts;
    }
  }

  lemma {:induction false} LineSound(ts: seq<Tok>) returns (l: LineD)
    requires ToksOk(ts) && Line(ts).Ok?
    ensures LineOk(l) && ts == LineToks(l) + Line(ts).rest && Line(ts).value == LineMeans(l)
    decreases |ts|, 3
  {
    var p := PipelineSound(ts);
    var t, amps := Pipeline(ts).value, Pipeline(ts).rest;
    Suffix(PipelineToks(p), amps);
    var n := BacksSound(t, amps);
    var after := Backs(t, amps).1;
    Suffix(Amps(n), after);
    if Starts(after, ';') {
      Head(after, ';');
      var next := LineSound(after[1..]);
      l := Then(p, n, next);
      ThenShape(p, n, next, Line(ts).rest);
    } else {
      l := Last(p, n);
      Regroup(PipelineToks(p), Amps(n), after);
    }
  }

  // ----- the theorem

  /** The shell accepts a line exactly if the grammar derives its tokens, and returns what the derivation means. */
  lemma ParseIsGrammar(s: string, t: Tree)
    requires NoNul(s)
    ensures Parse(s) == Ok(t, []) <==> Derives(Lex(s), t)
  {
    var ts := Lex(s);
    LexOk(s);
    if Parse(s) == Ok(t, []) {
      var l := LineSound(ts);
      assert LineToks(l) + [] == LineToks(l);
    }
    if Derives(ts, t) {
      var l :| LineOk(l) && LineToks(l) == ts && LineMeans(l) == t;
      LineParsed(l, []);
      assert LineToks(l) + [] == ts;
    }
  }

  /** A run of redirections in front of `rest` makes `u` out of `t`. */
  ghost predicate Redirections(ts: seq<Tok>, rest: seq<Tok>, t: Tree, u: Tree) {
    exists items :: ItemsOk(items) && OnlyRedirs(items) && ts == Toks(items) + rest && u == Redirected(t, items)
  }

  lemma RedirsAreDerived(s: string, t: Tree)
    requires NoNul(s) && Redirs(Lex(s)).Ok?
    ensures var ts := Lex(s); Redirections(ts, Redirs(ts).rest, t, Wrapped(t, Redirs(ts).value))
  {
    var ts := Lex(s);
    LexOk(s);
    var items := RedirsSound(ts);
    RedirectedIs(t, items);
  }

  /** What the three operators do: `<` opens descriptor 0 to read, `>` and `>>` both create the file as descriptor 1. */
  lemma OperatorMeans(t: Tree, file: string, items: seq<Item>)
    ensures Redirected(t, [Into(Sym('<'), file)] + items) == Redirected(Redir(t, file, 0, 0), items)
    ensures Redirected(t, [Into(Sym('>'), file)] + items) == Redirected(Redir(t, file, 0x201, 1), items)
    ensures Redirected(t, [Into(Append, file)] + items) == Redirected(Redir(t, file, 0x201, 1), items)
  {
    var a, b, c := [Into(Sym('<'), file)] + items, [Into(Sym('>'), file)] + items, [Into(Append, file)] + items;
    assert a[1..] == items && b[1..] == items && c[1..] == items;
  }

  function WordToks(ws: seq<string>): seq<Tok> {
    seq(|ws|, k requires 0 <= k < |ws| => Word(ws[k]))
  }

  function WordItems(ws: seq<string>): seq<Item> {
    seq(|ws|, k requires 0 <= k < |ws| => Arg(ws[k]))
  }

  lemma {:induction false} WordsAre(ws: seq<string>)
    ensures Toks(WordItems(ws)) == WordToks(ws) && ArgsOf(WordItems(ws)) == ws && WrapsOf(WordItems(ws)) == []
  {
    if ws != [] {
      WordsAre(ws[1..]);
      assert WordItems(ws)[1..] == WordItems(ws[1..]);
      assert WordToks(ws) == [Word(ws[0])] + WordToks(ws[1..]);
    }
  }

  lemma AroundShape(a: seq<string>, b: seq<string>, op: Tok, file: string)
    ensures var items := WordItems(a) + ([Into(op, file)] + WordItems(b));
      && Toks(items) == WordToks(a) + ([op, Word(file)] + WordToks(b))
      && ArgsOf(items) == a + b && WrapsOf(items) == [WrapOf(Code(op), file)]
  {
    var more := [Into(op, file)] + WordItems(b);
    WordsAre(a);
    WordsAre(b);
    Joined(WordItems(a), more);
    assert more[1..] == WordItems(b);
  }

  /** A line that is one simple command. */
  lemma SimpleLine(s: string, items: seq<Item>)
    requires NoNul(s) && Lex(s) == Toks(items) && ItemsOk(items) && |ArgsOf(items)| < MAXARGS
    ensures Parse(s) == Ok(Wrapped(Exec(ArgsOf(items)), WrapsOf(items)), [])
  {
    var p := One(Simple(items));
    var l := Last(p, 0);
    assert CommandToks(p.cmd) == Toks(items) && PipelineToks(p) == CommandToks(p.cmd);
    assert LineToks(l) == PipelineToks(p) + [];
    assert LineMeans(l) == PipelineMeans(p) && PipelineMeans(p) == CommandMeans(p.cmd);
    assert PipelineOk(p) && LineOk(l);
    RedirectedIs(Exec(ArgsOf(items)), items);
    ParseIsGrammar(s, LineMeans(l));
  }

  /** A redirection means the same before the words, between them and after them. */
  lemma RedirAnywhere(s: string, a: seq<string>, b: seq<string>, op: Tok, file: string)
    requires NoNul(s) && Lex(s) == WordToks(a) + ([op, Word(file)] + WordToks(b))
    requires op == Sym('<') || op == Sym('>') || op == Append
    ensures |a| + |b| < 10 ==>
      Parse(s) == Ok(if op == Sym('<') then Redir(Exec(a + b), file, 0, 0) else Redir(Exec(a + b), file, 0x201, 1), [])
  {
    var items, w := WordItems(a) + ([Into(op, file)] + WordItems(b)), WrapOf(Code(op), file);
    AroundShape(a, b, op, file);
    LexOk(s);
    AroundOk(a, b, op, file);
    if |a| + |b| < 10 {
      SimpleLine(s, items);
      assert [w][1..] == [];
      assert Wrapped(Exec(a + b), [w]) == Wrapped(Redir(Exec(a + b), file, w.mode, w.fd), []);
    }
  }

  lemma AroundOk(a: seq<string>, b: seq<string>, op: Tok, file: string)
    requires ToksOk(WordToks(a) + ([op, Word(file)] + WordToks(b)))
    requires op == Sym('<') || op == Sym('>') || op == Append
    ensures ItemsOk(WordItems(a) + ([Into(op, file)] + WordItems(b)))
  {
    var ts := WordToks(a) + ([op, Word(file)] + WordToks(b));
    var items := WordItems(a) + ([Into(op, file)] + WordItems(b));
    forall k | 0 <= k < |items|
      ensures ItemOk(items[k])
    {
      assert TokOk(ts[if k < |a| then k else k + 1]);
    }
  }

  /** No line has two readings. */
  lemma Unambiguous(l: LineD, l': LineD)
    requires LineOk(l) && LineOk(l') && LineToks(l) == LineToks(l')
    ensures LineMeans(l) == LineMeans(l')
  {
    LineParsed(l, []);
    LineParsed(l', []);
  }

  // ----- what the shell says about a bad line

  lemma CommandFails(s: string)
    requires NoNul(s) && Command(Lex(s)).Fail?
    ensures Parse(s) == Fail(Command(Lex(s)).error)
  {
    var ts := Lex(s);
    assert Pipeline(ts) == Fail(Command(ts).error);
    assert Line(ts) == Fail(Command(ts).error);
  }

  lemma {:induction false} ArgsWords(args: seq<string>, ws: seq<string>, rest: seq<Tok>)
    requires |args| + |ws| < MAXARGS && !StartsRedir(rest) && forall k | 0 <= k < |ws| :: IsWord(ws[k])
    ensures Args(args, [], WordToks(ws) + rest) == Args(args + ws, [], rest)
    decreases |ws|
  {
    if ws == [] {
      assert WordToks(ws) + rest == rest && args + ws == args;
    } else {
      var more := WordToks(ws[1..]) + rest;
      assert WordToks(ws) + rest == [Word(ws[0])] + more;
      if |ws| > 1 {
        assert more == [Word(ws[1])] + (WordToks(ws[2..]) + rest);
        WordFirst(ws[1], WordToks(ws[2..]) + rest);
      } else {
        assert more == rest;
      }
      assert Redirs(more) == Ok([], more);
      var none: seq<Wrap> := [];
      Nothing(none);
      ArgsStep(args, none, ws[0], more);
      ArgsWords(args + [ws[0]], ws[1..], rest);
      Regroup(args, [ws[0]], ws[1..]);
      assert [ws[0]] + ws[1..] == ws;
    }
  }

  /** The command that starts with these words. */
  lemma CommandWords(ws: seq<string>, rest: seq<Tok>)
    requires 0 < |ws| < MAXARGS && !StartsRedir(rest) && forall k | 0 <= k < |ws| :: IsWord(ws[k])
    ensures Command(WordToks(ws) + rest) == Args(ws, [], rest)
  {
    var more := WordToks(ws[1..]) + rest;
    assert WordToks(ws) + rest == [Word(ws[0])] + more;
    WordFirst(ws[0], more);
    ArgsWords([], ws, rest);
    Nothing(ws);
  }

  /** A tenth word is one too many. */
  lemma TenthWord(s: string, ws: seq<string>, w: string, rest: seq<Tok>)
    requires NoNul(s) && |ws| == 9 && Lex(s) == WordToks(ws) + ([Word(w)] + rest)
    ensures Parse(s) == Fail(TooManyArgs)
  {
    var after := [Word(w)] + rest;
    WordsOk(s, ws, after);
    Suffix(WordToks(ws), after);
    assert TokOk(after[0]);
    WordFirst(w, rest);
    CommandWords(ws, after);
    CommandFails(s);
  }

  /** A parenthesis cannot follow a word. */
  lemma ParenAfterWord(s: string, ws: seq<string>, rest: seq<Tok>)
    requires NoNul(s) && 0 < |ws| < 10 && Lex(s) == WordToks(ws) + ([Sym('(')] + rest)
    ensures Parse(s) == Fail(Syntax)
  {
    var after := [Sym('(')] + rest;
    WordsOk(s, ws, after);
    assert '(' != '|' && '(' != ')' && '(' != '&' && '(' != ';' && '(' != '<' && '(' != '>';
    CommandWords(ws, after);
    CommandFails(s);
  }

  lemma WordsOk(s: string, ws: seq<string>, rest: seq<Tok>)
    requires NoNul(s) && Lex(s) == WordToks(ws) + rest
    ensures ToksOk(WordToks(ws) + rest) && forall k | 0 <= k < |ws| :: IsWord(ws[k])
  {
    LexOk(s);
    forall k | 0 <= k < |ws| ensures IsWord(ws[k]) {
      assert TokOk((WordToks(ws) + rest)[k]);
    }
  }

  /** A redirection needs a file. */
  lemma NoFile(s: string, op: Tok, rest: seq<Tok>)
    requires NoNul(s) && Lex(s) == [op] + rest && (op == Sym('<') || op == Sym('>') || op == Append)
    ensures rest == [] || !rest[0].Word? ==> Parse(s) == Fail(MissingFile)
  {
    Prefixed(op, rest);
    if rest == [] || !rest[0].Word? {
      assert '(' != '<' && '(' != '>';
      assert Redirs(Lex(s)) == Fail(MissingFile);
      CommandFails(s);
    }
  }

  /** A line that is opened and not closed, and one that is closed and was not opened. */
  lemma Parens(s: string, l: LineD, rest: seq<Tok>)
    requires NoNul(s) && LineOk(l)
    ensures Lex(s) == [Sym('(')] + LineToks(l) ==> Parse(s) == Fail(MissingParen)
    ensures Lex(s) == LineToks(l) + ([Sym(')')] + rest) ==> Parse(s) == Fail(Leftovers)
  {
    if Lex(s) == [Sym('(')] + LineToks(l) {
      Prefixed(Sym('('), LineToks(l));
      LineParsed(l, []);
      Nothing(LineToks(l));
      CommandFails(s);
    }
    if Lex(s) == LineToks(l) + ([Sym(')')] + rest) {
      LineParsed(l, [Sym(')')] + rest);
    }
  }
}
