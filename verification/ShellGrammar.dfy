/**
 The grammar of the shell (`xv6/sh.c`) as a parser of token lists.  The parse functions of the
 source panic on bad input; here they fail with the reason.
 */
module ShellGrammar {
  import opened ShellLex

  const MAXARGS := 10
  const O_RDONLY := 0
  const O_WRONLY_CREATE := 0x201

  datatype Tree =
    | Exec(argv: seq<string>)
    | Redir(cmd: Tree, file: string, mode: nat, fd: nat)
    | Pipe(left: Tree, right: Tree)
    | List(left: Tree, right: Tree)
    | Back(cmd: Tree)

  datatype Error = MissingFile | Syntax | MissingParen | TooManyArgs | Leftovers

  /** A result, with the tokens that remain. */
  datatype Result<+T> = Ok(value: T, rest: seq<Tok>) | Fail(error: Error)

  /** One redirection. */
  datatype Wrap = Wrap(file: string, mode: nat, fd: nat)

  predicate Starts(ts: seq<Tok>, c: char) {
    ts != [] && First(ts[0]) == c
  }

  /** The next token is a redirection operator. */
  predicate StartsRedir(ts: seq<Tok>) {
    Starts(ts, '<') || Starts(ts, '>')
  }

  /** The next token ends a list of words. */
  predicate StartsEnd(ts: seq<Tok>) {
    Starts(ts, '|') || Starts(ts, ')') || Starts(ts, '&') || Starts(ts, ';')
  }

  /** A redirection by the code of its operator; `>` and `>>` are the same. */
  function WrapOf(code: char, file: string): Wrap {
    if code == '<' then Wrap(file, O_RDONLY, 0) else Wrap(file, O_WRONLY_CREATE, 1)
  }

  function Wrapped(t: Tree, ws: seq<Wrap>): Tree
    decreases ws
  {
    if ws == [] then t else Wrapped(Redir(t, ws[0].file, ws[0].mode, ws[0].fd), ws[1..])
  }

  /** parseredirs. */
  function Redirs(ts: seq<Tok>): (r: Result<seq<Wrap>>)
    ensures r.Ok? ==> |r.rest| <= |ts| && !StartsRedir(r.rest)
  {
    if !StartsRedir(ts) then Ok([], ts)
    else if |ts| < 2 || !ts[1].Word? then Fail(MissingFile)
    else
      match Redirs(ts[2..])
      case Fail(e) => Fail(e)
      case Ok(ws, rest) => Ok([WrapOf(Code(ts[0]), ts[1].w)] + ws, rest)
  }

  /** The loop of parseexec, after `args` words. */
  function Args(args: seq<string>, wraps: seq<Wrap>, ts: seq<Tok>): (r: Result<Tree>)
    ensures r.Ok? ==> |r.rest| <= |ts|
    decreases |ts|
  {
    if StartsEnd(ts) || ts == [] then Ok(Wrapped(Exec(args), wraps), ts)
    else if !ts[0].Word? then Fail(Syntax)
    else if |args| + 1 >= MAXARGS then Fail(TooManyArgs)
    else
      match Redirs(ts[1..])
      case Fail(e) => Fail(e)
      case Ok(ws, rest) => Args(args + [ts[0].w], wraps + ws, rest)
  }

  /** parseexec. */
  function Command(ts: seq<Tok>): (r: Result<Tree>)
    ensures r.Ok? ==> |r.rest| <= |ts|
    decreases |ts|, 1
  {
    if Starts(ts, '(') then Block(ts)
    else
      match Redirs(ts)
      case Fail(e) => Fail(e)
      case Ok(ws, rest) => Args([], ws, rest)
  }

  /** parseblock. */
  function Block(ts: seq<Tok>): (r: Result<Tree>)
    requires Starts(ts, '(')
    ensures r.Ok? ==> |r.rest| <= |ts|
    decreases |ts|, 0
  {
    match Line(ts[1..])
    case Fail(e) => Fail(e)
    case Ok(t, rest) =>
      if !Starts(rest, ')') then Fail(MissingParen)
      else
        match Redirs(rest[1..])
        case Fail(e) => Fail(e)
        case Ok(ws, rest') => Ok(Wrapped(t, ws), rest')
  }

  /** parsepipe. */
  function Pipeline(ts: seq<Tok>): (r: Result<Tree>)
    ensures r.Ok? ==> |r.rest| <= |ts|
    decreases |ts|, 2
  {
    match Command(ts)
    case Fail(e) => Fail(e)
    case Ok(t, rest) =>
      if !Starts(rest, '|') then Ok(t, rest)
      else
        match Pipeline(rest[1..])
        case Fail(e) => Fail(e)
        case Ok(u, rest') => Ok(Pipe(t, u), rest')
  }

  /** The loop of parseline. */
  function Backs(t: Tree, ts: seq<Tok>): (r: (Tree, seq<Tok>))
    ensures |r.1| <= |ts| && !Starts(r.1, '&')
    decreases |ts|
  {
    if Starts(ts, '&') then Backs(Back(t), ts[1..]) else (t, ts)
  }

  /** parseline. */
  function Line(ts: seq<Tok>): (r: Result<Tree>)
    ensures r.Ok? ==> |r.rest| <= |ts|
    decreases |ts|, 4
  {
    match Pipeline(ts)
    case Fail(e) => Fail(e)
    case Ok(t, rest) => Rest(Backs(t, rest).0, Backs(t, rest).1)
  }

  /** The end of parseline. */
  function Rest(t: Tree, ts: seq<Tok>): (r: Result<Tree>)
    ensures r.Ok? ==> |r.rest| <= |ts|
    decreases |ts|, 3
  {
    if !Starts(ts, ';') then Ok(t, ts)
    else
      match Line(ts[1..])
      case Fail(e) => Fail(e)
      case Ok(u, rest) => Ok(List(t, u), rest)
  }

  /** parsecmd, up to nulterminate. */
  function Parse(s: string): Result<Tree>
    requires NoNul(s)
  {
    match Line(Lex(s))
    case Fail(e) => Fail(e)
    case Ok(t, rest) => if rest == [] then Ok(t, []) else Fail(Leftovers)
  }
}
