/** Printing command trees of the shell (`xv6/sh.c`), and that parsing undoes it. */
module ShellShow {
  import opened ShellLex
  import opened ShellGrammar

  predicate WrapOk(mode: nat, fd: nat) {
    (mode == O_RDONLY && fd == 0) || (mode == O_WRONLY_CREATE && fd == 1)
  }

  /** Trees that the shell can write down. */
  predicate Printable(t: Tree) {
    match t
    case Exec(argv) => |argv| < MAXARGS && forall k | 0 <= k < |argv| :: IsWord(argv[k])
    case Redir(c, file, mode, fd) => Printable(c) && IsWord(file) && WrapOk(mode, fd)
    case Pipe(l, r) => Printable(l) && Printable(r)
    case List(l, r) => Printable(l) && Printable(r)
    case Back(c) => Printable(c)
  }

  /** How tightly the outermost construct binds. */
  function Level(t: Tree): nat {
    match t
    case List(_, _) => 0
    case Back(_) => 1
    case Pipe(_, _) => 2
    case _ => 3
  }

  function Words(argv: seq<string>): seq<Tok> {
    seq(|argv|, k requires 0 <= k < |argv| => Word(argv[k]))
  }

  function Operator(mode: nat): Tok {
    if mode == O_RDONLY then Sym('<') else Sym('>')
  }

  function Body(t: Tree): seq<Tok>
    decreases t, 0
  {
    match t
    case Exec(argv) => Words(argv)
    case Redir(c, file, mode, _) => Show(c, 3) + [Operator(mode), Word(file)]
    case Pipe(l, r) => Show(l, 3) + [Sym('|')] + Show(r, 2)
    case List(l, r) => Show(l, 1) + [Sym(';')] + Show(r, 0)
    case Back(c) => Show(c, 1) + [Sym('&')]
  }

  /** The tree where at least level `n` is asked for, in parentheses if it binds less. */
  function Show(t: Tree, n: nat): seq<Tok>
    decreases t, 1
  {
    if Level(t) < n then [Sym('(')] + Body(t) + [Sym(')')] else Body(t)
  }

  /** The canonical text of a command. */
  function Print(t: Tree): string {
    Spell(Show(t, 0))
  }

  // ----- redirections

  /** The command under all redirections, and the redirections from the inside out. */
  function Base(t: Tree): Tree {
    match t
    case Redir(c, _, _, _) => Base(c)
    case _ => t
  }

  function WrapsOf(t: Tree): seq<Wrap> {
    match t
    case Redir(c, file, mode, fd) => WrapsOf(c) + [Wrap(file, mode, fd)]
    case _ => []
  }

  function ShowWraps(ws: seq<Wrap>): seq<Tok> {
    if ws == [] then [] else [Operator(ws[0].mode), Word(ws[0].file)] + ShowWraps(ws[1..])
  }

  predicate WrapsOk(ws: seq<Wrap>) {
    forall k | 0 <= k < |ws| :: WrapOk(ws[k].mode, ws[k].fd) && IsWord(ws[k].file)
  }

  lemma {:induction false} ShowWrapsAdd(ws: seq<Wrap>, w: Wrap)
    ensures ShowWraps(ws + [w]) == ShowWraps(ws) + [Operator(w.mode), Word(w.file)]
  {
    if ws == [] {
      assert ws + [w] == [w];
    } else {
      assert (ws + [w])[1..] == ws[1..] + [w];
      ShowWrapsAdd(ws[1..], w);
    }
  }

  lemma {:induction false} WrappedAdd(t: Tree, ws: seq<Wrap>, w: Wrap)
    ensures Wrapped(t, ws + [w]) == Redir(Wrapped(t, ws), w.file, w.mode, w.fd)
    decreases ws
  {
    if ws == [] {
      assert ws + [w] == [w];
    } else {
      assert (ws + [w])[1..] == ws[1..] + [w];
      WrappedAdd(Redir(t, ws[0].file, ws[0].mode, ws[0].fd), ws[1..], w);
    }
  }

  /** A tree is its base in its redirections, and is printed so. */
  lemma {:induction false} Unwrap(t: Tree)
    requires Printable(t)
    ensures t == Wrapped(Base(t), WrapsOf(t)) && !Base(t).Redir? && Printable(Base(t)) && WrapsOk(WrapsOf(t))
    ensures Show(t, 3) == Show(Base(t), 3) + ShowWraps(WrapsOf(t))
    ensures Base(t) == t || Base(t) < t
  {
    match t {
      case Redir(c, file, mode, fd) =>
        Unwrap(c);
        WrappedAdd(Base(c), WrapsOf(c), Wrap(file, mode, fd));
        ShowWrapsAdd(WrapsOf(c), Wrap(file, mode, fd));
        assert Show(t, 3) == Show(Base(c), 3) + (ShowWraps(WrapsOf(c)) + [Operator(mode), Word(file)]);
      case _ =>
        assert Show(t, 3) == Show(t, 3) + [];
    }
  }

  lemma {:induction false} RedirsShow(ws: seq<Wrap>, rest: seq<Tok>)
    requires WrapsOk(ws) && !StartsRedir(rest)
    ensures Redirs(ShowWraps(ws) + rest) == Ok(ws, rest)
  {
    if ws == [] {
      assert ShowWraps(ws) + rest == rest;
    } else {
      RedirsShow(ws[1..], rest);
      RedirsNext(ws[0], ShowWraps(ws[1..]) + rest, ws[1..], rest);
      assert ShowWraps(ws) + rest == [Operator(ws[0].mode), Word(ws[0].file)] + (ShowWraps(ws[1..]) + rest);
      assert [ws[0]] + ws[1..] == ws;
    }
  }

  /** One redirection in front. */
  lemma RedirsNext(w: Wrap, tail: seq<Tok>, ws: seq<Wrap>, rest: seq<Tok>)
    requires WrapsOk([w]) && Redirs(tail) == Ok(ws, rest)
    ensures Redirs([Operator(w.mode), Word(w.file)] + tail) == Ok([w] + ws, rest)
  {
    assert [w][0] == w;
    var ts := [Operator(w.mode), Word(w.file)] + tail;
    assert ts[0] == Operator(w.mode) && ts[1] == Word(w.file) && ts[2..] == tail;
    assert WrapOf(Code(ts[0]), w.file) == w;
  }

  // ----- words

  predicate WordsOk(argv: seq<string>) {
    forall k | 0 <= k < |argv| :: IsWord(argv[k])
  }

  lemma WordStarts(w: string, ts: seq<Tok>)
    requires IsWord(w)
    ensures !StartsEnd([Word(w)] + ts) && !StartsRedir([Word(w)] + ts) && !Starts([Word(w)] + ts, '(')
  {
    assert WordChar(w[0]);
  }

  /** The loop of parseexec on words followed by redirections. */
  lemma {:induction false} ArgsShow(args: seq<string>, more: seq<string>, wraps: seq<Wrap>, ws: seq<Wrap>,
                                    rest: seq<Tok>)
    requires WordsOk(more) && WrapsOk(ws) && |args| + |more| < MAXARGS && (rest == [] || StartsEnd(rest))
    requires more == [] ==> ws == []
    ensures Args(args, wraps, Words(more) + ShowWraps(ws) + rest) == Ok(Wrapped(Exec(args + more), wraps + ws), rest)
    decreases more
  {
    if more == [] {
      ArgsEnd(args, wraps, rest);
      assert Words(more) + ShowWraps(ws) + rest == rest && args + more == args && wraps + ws == wraps;
    } else if |more| == 1 {
      ArgsLast(args, more[0], wraps, ws, rest);
      assert more == [more[0]];
    } else {
      ArgsMore(args, more, wraps, ws, rest);
      assert args + [more[0]] + more[1..] == args + more;
      ArgsShow(args + [more[0]], more[1..], wraps, ws, rest);
    }
  }

  lemma ArgsEnd(args: seq<string>, wraps: seq<Wrap>, rest: seq<Tok>)
    requires |args| < MAXARGS && (rest == [] || StartsEnd(rest))
    ensures Args(args, wraps, rest) == Ok(Wrapped(Exec(args), wraps), rest)
  {
  }

  /** The last word and the redirections after it. */
  lemma ArgsLast(args: seq<string>, w: string, wraps: seq<Wrap>, ws: seq<Wrap>, rest: seq<Tok>)
    requires IsWord(w) && WrapsOk(ws) && |args| + 1 < MAXARGS && (rest == [] || StartsEnd(rest))
    ensures Args(args, wraps, Words([w]) + ShowWraps(ws) + rest) == Ok(Wrapped(Exec(args + [w]), wraps + ws), rest)
  {
    var tail := ShowWraps(ws) + rest;
    assert Words([w]) + ShowWraps(ws) + rest == [Word(w)] + tail;
    RedirsShow(ws, rest);
    ArgsStep(args, w, wraps, tail, ws, rest);
    ArgsEnd(args + [w], wraps + ws, rest);
  }

  /** A word that another word follows. */
  lemma ArgsMore(args: seq<string>, more: seq<string>, wraps: seq<Wrap>, ws: seq<Wrap>, rest: seq<Tok>)
    requires WordsOk(more) && |more| > 1 && |args| + 1 < MAXARGS
    ensures Args(args, wraps, Words(more) + ShowWraps(ws) + rest) ==
            Args(args + [more[0]], wraps, Words(more[1..]) + ShowWraps(ws) + rest)
  {
    var tail := Words(more[1..]) + (ShowWraps(ws) + rest);
    assert Words(more) + ShowWraps(ws) + rest == [Word(more[0])] + tail;
    assert tail == Words(more[1..]) + ShowWraps(ws) + rest;
    WordsTail(more[1..], ShowWraps(ws) + rest);
    ArgsStep(args, more[0], wraps, tail, [], tail);
    assert wraps + [] == wraps;
  }

  /** One turn of the loop of parseexec. */
  lemma ArgsStep(args: seq<string>, w: string, wraps: seq<Wrap>, tail: seq<Tok>, ws: seq<Wrap>, rest: seq<Tok>)
    requires IsWord(w) && |args| + 1 < MAXARGS && Redirs(tail) == Ok(ws, rest)
    ensures Args(args, wraps, [Word(w)] + tail) == Args(args + [w], wraps + ws, rest)
  {
    WordStarts(w, tail);
    var ts := [Word(w)] + tail;
    assert ts[0] == Word(w) && ts[1..] == tail;
  }

  lemma WordsTail(more: seq<string>, tail: seq<Tok>)
    requires more != [] && WordsOk(more)
    ensures Redirs(Words(more) + tail) == Ok([], Words(more) + tail)
  {
    var ts := Words(more) + tail;
    WordStarts(more[0], ts[1..]);
    assert ts == [Word(more[0])] + ts[1..];
  }

  /** A command without words. */
  lemma ExecBare(ws: seq<Wrap>, rest: seq<Tok>)
    requires WrapsOk(ws) && (rest == [] || StartsEnd(rest))
    ensures Command(ShowWraps(ws) + rest) == Ok(Wrapped(Exec([]), ws), rest)
  {
    RedirsShow(ws, rest);
    assert ws != [] ==> (ShowWraps(ws) + rest)[0] == Operator(ws[0].mode);
    ArgsEnd([], ws, rest);
  }

  lemma ExecShow(argv: seq<string>, ws: seq<Wrap>, rest: seq<Tok>)
    requires WordsOk(argv) && WrapsOk(ws) && |argv| < MAXARGS && (rest == [] || StartsEnd(rest))
    ensures Command(Words(argv) + ShowWraps(ws) + rest) == Ok(Wrapped(Exec(argv), ws), rest)
  {
    var ts := Words(argv) + ShowWraps(ws) + rest;
    if argv == [] {
      assert ts == ShowWraps(ws) + rest;
      ExecBare(ws, rest);
    } else {
      assert ts == [Word(argv[0])] + ts[1..];
      WordStarts(argv[0], ts[1..]);
      RedirsShow([], ts);
      assert ShowWraps([]) + ts == ts;
      ArgsShow([], argv, [], ws, rest);
      assert [] + argv == argv && [] + ws == ws;
    }
  }

  // ----- the grammar undoes printing, level by level

  /** What may follow a pipeline, and a line. */
  predicate EndsPipe(ts: seq<Tok>) {
    ts == [] || Starts(ts, ')') || Starts(ts, '&') || Starts(ts, ';')
  }

  predicate EndsLine(ts: seq<Tok>) {
    ts == [] || Starts(ts, ')')
  }

  /** parseline up to its last `if`. */
  function BackLine(ts: seq<Tok>): Result<Tree> {
    match Pipeline(ts)
    case Fail(e) => Fail(e)
    case Ok(t, rest) => Ok(Backs(t, rest).0, Backs(t, rest).1)
  }

  lemma {:induction false} CommandShow(t: Tree, rest: seq<Tok>)
    requires Printable(t) && (rest == [] || StartsEnd(rest))
    ensures Command(Show(t, 3) + rest) == Ok(t, rest)
    decreases t, 3
  {
    Unwrap(t);
    var b, ws := Base(t), WrapsOf(t);
    assert Show(t, 3) + rest == Show(b, 3) + (ShowWraps(ws) + rest);
    if b.Exec? {
      ExecShow(b.argv, ws, rest);
      assert Words(b.argv) + ShowWraps(ws) + rest == Show(b, 3) + (ShowWraps(ws) + rest);
    } else {
      BlockShow(b, ws, rest);
    }
  }

  lemma {:induction false} BlockShow(t: Tree, ws: seq<Wrap>, rest: seq<Tok>)
    requires Printable(t) && Level(t) < 3 && WrapsOk(ws) && !StartsRedir(rest)
    ensures Command(Show(t, 3) + (ShowWraps(ws) + rest)) == Ok(Wrapped(t, ws), rest)
    decreases t, 2
  {
    var after := [Sym(')')] + (ShowWraps(ws) + rest);
    BodyLine(t, after);
    RedirsShow(ws, rest);
    Parenthesised(t, ShowWraps(ws) + rest);
    assert after[1..] == ShowWraps(ws) + rest;
  }

  lemma Parenthesised(t: Tree, rest: seq<Tok>)
    requires Level(t) < 3
    ensures var ts := Show(t, 3) + rest;
            |ts| > 0 && ts[0] == Sym('(') && ts[1..] == Body(t) + ([Sym(')')] + rest)
  {
    var ts := Show(t, 3) + rest;
    assert ts == [Sym('(')] + (Body(t) + ([Sym(')')] + rest));
  }

  lemma {:induction false} PipelineShow(t: Tree, rest: seq<Tok>)
    requires Printable(t) && EndsPipe(rest)
    ensures Pipeline(Show(t, 2) + rest) == Ok(t, rest)
    decreases t, 4
  {
    if t.Pipe? {
      PipeBody(t, rest);
    } else {
      CommandShow(t, rest);
    }
  }

  lemma {:induction false} PipeBody(t: Tree, rest: seq<Tok>)
    requires t.Pipe? && Printable(t) && EndsPipe(rest)
    ensures Pipeline(Body(t) + rest) == Ok(t, rest)
    decreases t, 0
  {
    var after := [Sym('|')] + (Show(t.right, 2) + rest);
    assert Body(t) + rest == Show(t.left, 3) + after;
    CommandShow(t.left, after);
    PipelineShow(t.right, rest);
    assert after[1..] == Show(t.right, 2) + rest;
  }

  lemma {:induction false} BackShow(t: Tree, rest: seq<Tok>)
    requires Printable(t) && EndsPipe(rest)
    ensures BackLine(Show(t, 1) + rest) == Ok(Backs(t, rest).0, Backs(t, rest).1)
    decreases t, 5
  {
    if t.Back? {
      BackBody(t, rest);
    } else {
      PipelineShow(t, rest);
    }
  }

  lemma {:induction false} BackBody(t: Tree, rest: seq<Tok>)
    requires t.Back? && Printable(t) && EndsPipe(rest)
    ensures BackLine(Body(t) + rest) == Ok(Backs(t, rest).0, Backs(t, rest).1)
    decreases t, 0
  {
    var after := [Sym('&')] + rest;
    assert Body(t) + rest == Show(t.cmd, 1) + after;
    BackShow(t.cmd, after);
    assert after[1..] == rest;
  }

  lemma {:induction false} LineShow(t: Tree, rest: seq<Tok>)
    requires Printable(t) && EndsLine(rest)
    ensures Line(Show(t, 0) + rest) == Ok(t, rest)
    decreases t, 6
  {
    if Level(t) < 3 {
      BodyLine(t, rest);
    } else {
      BackShow(t, rest);
    }
  }

  lemma {:induction false} BodyLine(t: Tree, rest: seq<Tok>)
    requires Printable(t) && EndsLine(rest) && Level(t) < 3
    ensures Line(Body(t) + rest) == Ok(t, rest)
    decreases t, 1
  {
    if t.List? {
      var after := [Sym(';')] + (Show(t.right, 0) + rest);
      assert Body(t) + rest == Show(t.left, 1) + after;
      BackShow(t.left, after);
      LineShow(t.right, rest);
      assert after[1..] == Show(t.right, 0) + rest;
      assert Rest(t.left, after) == Ok(t, rest);
    } else if t.Back? {
      BackBody(t, rest);
      assert Rest(t, rest) == Ok(t, rest);
    } else {
      PipeBody(t, rest);
      assert Rest(t, rest) == Ok(t, rest);
    }
  }

  lemma {:induction false} BodyToks(t: Tree)
    requires Printable(t)
    ensures ToksOk(Body(t))
  {
    match t {
      case Exec(_) =>
      case Redir(c, _, _, _) => BodyToks(c);
      case Pipe(l, r) => BodyToks(l); BodyToks(r);
      case List(l, r) => BodyToks(l); BodyToks(r);
      case Back(c) => BodyToks(c);
    }
  }

  /** Parsing the canonical text of a tree gives the tree. */
  lemma RoundTrip(t: Tree)
    requires Printable(t)
    ensures NoNul(Print(t)) && Parse(Print(t)) == Ok(t, [])
  {
    BodyToks(t);
    LexSpell(Show(t, 0));
    LineShow(t, []);
    assert Show(t, 0) + [] == Show(t, 0);
  }

  // ----- everything the parser accepts can be printed

  lemma {:induction false} WrappedPrintable(t: Tree, ws: seq<Wrap>)
    requires Printable(t) && WrapsOk(ws)
    ensures Printable(Wrapped(t, ws))
    decreases ws
  {
    if ws != [] {
      WrappedPrintable(Redir(t, ws[0].file, ws[0].mode, ws[0].fd), ws[1..]);
    }
  }

  lemma {:induction false} RedirsPrintable(ts: seq<Tok>)
    requires ToksOk(ts)
    ensures Redirs(ts).Ok? ==> WrapsOk(Redirs(ts).value) && ToksOk(Redirs(ts).rest)
  {
    if StartsRedir(ts) && |ts| >= 2 && ts[1].Word? {
      RedirsPrintable(ts[2..]);
    }
  }

  lemma {:induction false} ArgsPrintable(args: seq<string>, wraps: seq<Wrap>, ts: seq<Tok>)
    requires ToksOk(ts) && WordsOk(args) && |args| < MAXARGS && WrapsOk(wraps)
    ensures Args(args, wraps, ts).Ok? ==> Printable(Args(args, wraps, ts).value) && ToksOk(Args(args, wraps, ts).rest)
    decreases |ts|
  {
    if StartsEnd(ts) || ts == [] {
      WrappedPrintable(Exec(args), wraps);
    } else if ts[0].Word? && |args| + 1 < MAXARGS {
      RedirsPrintable(ts[1..]);
      match Redirs(ts[1..]) {
        case Fail(_) =>
        case Ok(ws, rest) => ArgsPrintable(args + [ts[0].w], wraps + ws, rest);
      }
    }
  }

  lemma {:induction false} CommandPrintable(ts: seq<Tok>)
    requires ToksOk(ts)
    ensures Command(ts).Ok? ==> Printable(Command(ts).value) && ToksOk(Command(ts).rest)
    decreases |ts|, 1
  {
    if Starts(ts, '(') {
      LinePrintable(ts[1..]);
      match Line(ts[1..]) {
        case Fail(_) =>
        case Ok(t, rest) =>
          if Starts(rest, ')') {
            RedirsPrintable(rest[1..]);
            match Redirs(rest[1..]) {
              case Fail(_) =>
              case Ok(ws, _) => WrappedPrintable(t, ws);
            }
          }
      }
    } else {
      RedirsPrintable(ts);
      match Redirs(ts) {
        case Fail(_) =>
        case Ok(ws, rest) => ArgsPrintable([], ws, rest);
      }
    }
  }

  lemma {:induction false} PipelinePrintable(ts: seq<Tok>)
    requires ToksOk(ts)
    ensures Pipeline(ts).Ok? ==> Printable(Pipeline(ts).value) && ToksOk(Pipeline(ts).rest)
    decreases |ts|, 2
  {
    CommandPrintable(ts);
    match Command(ts) {
      case Fail(_) =>
      case Ok(_, rest) =>
        if Starts(rest, '|') {
          PipelinePrintable(rest[1..]);
        }
    }
  }

  lemma {:induction false} BacksPrintable(t: Tree, ts: seq<Tok>)
    requires Printable(t) && ToksOk(ts)
    ensures Printable(Backs(t, ts).0) && ToksOk(Backs(t, ts).1)
    decreases |ts|
  {
    if Starts(ts, '&') {
      BacksPrintable(Back(t), ts[1..]);
    }
  }

  lemma {:induction false} LinePrintable(ts: seq<Tok>)
    requires ToksOk(ts)
    ensures Line(ts).Ok? ==> Printable(Line(ts).value) && ToksOk(Line(ts).rest)
    decreases |ts|, 3
  {
    PipelinePrintable(ts);
    match Pipeline(ts) {
      case Fail(_) =>
      case Ok(t, rest) =>
        BacksPrintable(t, rest);
        var rest' := Backs(t, rest).1;
        if Starts(rest', ';') {
          LinePrintable(rest'[1..]);
        }
    }
  }

  /** Printing what was parsed and parsing it again changes nothing: every accepted line has a canonical form. */
  lemma ParsePrintParse(s: string)
    requires NoNul(s) && Parse(s).Ok?
    ensures Printable(Parse(s).value)
    ensures NoNul(Print(Parse(s).value)) && Parse(Print(Parse(s).value)) == Parse(s)
  {
    LexOk(s);
    LinePrintable(Lex(s));
    RoundTrip(Parse(s).value);
  }
}
