/**
 The parser of `xv6/sh.c` as code: `pos` is `*ps`, and words are pairs of positions in the input.
 Each method is proved against the grammar on tokens.
 */
module ShellCode {
  import opened ShellLex
  import D = ShellDerive
  import G = ShellGrammar

  datatype Span = Span(q: nat, eq: nat)

  datatype Cmd =
    | Exec(argv: seq<Span>)
    | Redir(cmd: Cmd, file: Span, mode: nat, fd: nat)
    | Pipe(left: Cmd, right: Cmd)
    | List(left: Cmd, right: Cmd)
    | Back(cmd: Cmd)

  datatype Outcome = Done(cmd: Cmd) | Panic(error: G.Error)

  function Slice(s: string, w: Span): string {
    if w.q <= w.eq <= |s| then s[w.q..w.eq] else ""
  }

  function Slices(s: string, argv: seq<Span>): seq<string> {
    seq(|argv|, k requires 0 <= k < |argv| => Slice(s, argv[k]))
  }

  /** The tree with its words read from the input. */
  function TreeOf(s: string, c: Cmd): G.Tree {
    match c
    case Exec(argv) => G.Exec(Slices(s, argv))
    case Redir(d, file, mode, fd) => G.Redir(TreeOf(s, d), Slice(s, file), mode, fd)
    case Pipe(l, r) => G.Pipe(TreeOf(s, l), TreeOf(s, r))
    case List(l, r) => G.List(TreeOf(s, l), TreeOf(s, r))
    case Back(d) => G.Back(TreeOf(s, d))
  }

  /** A whole word: it cannot be extended to the right. */
  predicate SpanOk(s: string, w: Span) {
    && w.q < w.eq <= |s| && (forall k | w.q <= k < w.eq :: WordChar(s[k]))
    && (w.eq < |s| ==> !WordChar(s[w.eq]))
  }

  predicate SpansOk(s: string, c: Cmd) {
    match c
    case Exec(argv) => forall k | 0 <= k < |argv| :: SpanOk(s, argv[k])
    case Redir(d, file, _, _) => SpansOk(s, d) && SpanOk(s, file)
    case Pipe(l, r) => SpansOk(s, l) && SpansOk(s, r)
    case List(l, r) => SpansOk(s, l) && SpansOk(s, r)
    case Back(d) => SpansOk(s, d)
  }

  /** The code's outcome is the grammar's, and it stops at the same token. */
  predicate Agrees(s: string, out: Outcome, ahead: seq<Tok>, r: G.Result<G.Tree>) {
    match r
    case Fail(e) => out == Panic(e)
    case Ok(t, rest) => out.Done? && SpansOk(s, out.cmd) && TreeOf(s, out.cmd) == t && ahead == rest
  }

  // ----- one more argument for the execcmd under the redirections

  function WithArg(c: Cmd, w: Span): Cmd {
    match c
    case Exec(argv) => Exec(argv + [w])
    case Redir(d, file, mode, fd) => Redir(WithArg(d, w), file, mode, fd)
    case _ => c
  }

  function AddArg(t: G.Tree, w: string): G.Tree {
    match t
    case Exec(argv) => G.Exec(argv + [w])
    case Redir(d, file, mode, fd) => G.Redir(AddArg(d, w), file, mode, fd)
    case _ => t
  }

  lemma {:induction false} WithArgTree(s: string, c: Cmd, w: Span)
    requires SpansOk(s, c) && SpanOk(s, w)
    ensures SpansOk(s, WithArg(c, w)) && TreeOf(s, WithArg(c, w)) == AddArg(TreeOf(s, c), Slice(s, w))
  {
    match c {
      case Exec(argv) =>
        assert Slices(s, argv + [w]) == Slices(s, argv) + [Slice(s, w)];
      case Redir(d, _, _, _) =>
        WithArgTree(s, d, w);
      case _ =>
    }
  }

  lemma {:induction false} AddArgWrapped(t: G.Tree, ws: seq<G.Wrap>, w: string)
    ensures AddArg(G.Wrapped(t, ws), w) == G.Wrapped(AddArg(t, w), ws)
    decreases ws
  {
    if ws != [] {
      AddArgWrapped(G.Redir(t, ws[0].file, ws[0].mode, ws[0].fd), ws[1..], w);
    }
  }

  lemma {:induction false} WrappedTwice(t: G.Tree, ws: seq<G.Wrap>, vs: seq<G.Wrap>)
    ensures G.Wrapped(G.Wrapped(t, ws), vs) == G.Wrapped(t, ws + vs)
    decreases ws
  {
    if ws == [] {
      assert ws + vs == vs;
    } else {
      assert (ws + vs)[1..] == ws[1..] + vs;
      WrappedTwice(G.Redir(t, ws[0].file, ws[0].mode, ws[0].fd), ws[1..], vs);
    }
  }

  class Parser {
    const s: string
    var pos: nat

    constructor (s: string)
      requires NoNul(s)
      ensures Valid() && this.s == s && pos == 0
    {
      this.s := s;
      pos := 0;
    }

    predicate Valid()
      reads this
    {
      pos <= |s| && NoNul(s)
    }

    /** The tokens that remain. */
    ghost function Ahead(): seq<Tok>
      requires Valid()
      reads this
    {
      Lex(s[pos..])
    }

    /** `*s`, which is NUL at the end. */
    function Current(): (c: char)
      requires Valid()
      reads this
      ensures c == NUL <==> pos == |s|
    {
      if pos < |s| then s[pos] else NUL
    }

    method SkipWhite()
      requires Valid()
      modifies this`pos
      ensures Valid() && old(pos) <= pos && Ahead() == old(Ahead())
      ensures pos < |s| ==> !White(s[pos])
    {
      while pos < |s| && White(s[pos])
        invariant Valid() && old(pos) <= pos && Ahead() == old(Ahead())
      {
        assert s[pos..][1..] == s[pos + 1..];
        pos := pos + 1;
      }
    }

    /** The inner loop of gettoken. */
    method SkipWord()
      requires Valid()
      modifies this`pos
      ensures Valid() && pos == old(pos) + WordLen(s[old(pos)..])
    {
      while pos < |s| && WordChar(s[pos])
        invariant Valid() && pos + WordLen(s[pos..]) == old(pos) + WordLen(s[old(pos)..])
      {
        assert s[pos..][1..] == s[pos + 1..];
        pos := pos + 1;
      }
    }

    /** The `switch` of gettoken. */
    method Scan() returns (ret: char)
      requires Valid() && (pos < |s| ==> !White(s[pos]))
      modifies this`pos
      ensures Valid()
      ensures old(pos) == |s| ==> ret == NUL && pos == old(pos)
      ensures old(pos) < |s| ==> ret == Code(Lex1(s[old(pos)..]).0) && pos == old(pos) + Lex1(s[old(pos)..]).1
    {
      ret := Current();
      if ret == NUL {
      } else if ret == '|' || ret == '(' || ret == ')' || ret == ';' || ret == '&' || ret == '<' {
        pos := pos + 1;
      } else if ret == '>' {
        pos := pos + 1;
        if Current() == '>' {
          ret := '+';
          pos := pos + 1;
        }
      } else {
        ret := 'a';
        SkipWord();
      }
    }

    /** gettoken: consumes the next token; a word is `s[q..eq]`. */
    method GetToken() returns (ret: char, q: nat, eq: nat)
      requires Valid()
      modifies this`pos
      ensures Valid() && old(pos) <= pos
      ensures ret == NUL <==> old(Ahead()) == []
      ensures ret == 'a' <==> old(Ahead()) != [] && old(Ahead())[0].Word?
      ensures old(Ahead()) == [] ==> Ahead() == []
      ensures old(Ahead()) != [] ==> old(pos) < pos && ret == Code(old(Ahead())[0]) && Ahead() == old(Ahead())[1..]
      ensures old(Ahead()) != [] && old(Ahead())[0].Word? ==>
              SpanOk(s, Span(q, eq)) && Slice(s, Span(q, eq)) == old(Ahead())[0].w
    {
      CodeTells(s[pos..]);
      SkipWhite();
      q := pos;
      if pos < |s| {
        LexAt(s, pos);
      }
      ret := Scan();
      eq := pos;
      SkipWhite();
    }

    /** peek: whether the next token starts with a character of `toks`. */
    method Peek(toks: string) returns (b: bool)
      requires Valid()
      modifies this`pos
      ensures Valid() && old(pos) <= pos && Ahead() == old(Ahead())
      ensures b <==> Ahead() != [] && First(Ahead()[0]) in toks
      ensures pos == |s| <==> Ahead() == []
    {
      SkipWhite();
      b := Current() != NUL && Current() in toks;
      if pos < |s| {
        FirstIs(s[pos..]);
      }
    }

    /** One turn of the loop of parseredirs. */
    method OneRedir(cmd: Cmd) returns (out: Outcome)
      requires Valid() && SpansOk(s, cmd) && G.StartsRedir(Ahead())
      modifies this`pos
      ensures Valid() && old(pos) < pos
      ensures var ts := old(Ahead());
              if |ts| < 2 || !ts[1].Word? then out == Panic(G.MissingFile)
              else Agrees(s, out, Ahead(), G.Ok(G.Wrapped(TreeOf(s, cmd), [G.WrapOf(Code(ts[0]), ts[1].w)]), ts[2..]))
      ensures out.Done? ==>
        && out.cmd.Redir? && out.cmd.cmd == cmd && Slice(s, out.cmd.file) == old(Ahead())[1].w
        && (if old(Ahead())[0] == Sym('<') then out.cmd.mode == 0 && out.cmd.fd == 0
            else out.cmd.mode == 0x201 && out.cmd.fd == 1)
    {
      ghost var ts := Ahead();
      var tok, _, _ := GetToken();
      var word, q, eq := GetToken();
      if word != 'a' {
        return Panic(G.MissingFile);
      }
      if tok == '<' {
        out := Done(Redir(cmd, Span(q, eq), G.O_RDONLY, 0));
      } else {
        out := Done(Redir(cmd, Span(q, eq), G.O_WRONLY_CREATE, 1));
      }
    }

    /** parseredirs. */
    method ParseRedirs(c: Cmd) returns (out: Outcome)
      requires Valid() && SpansOk(s, c)
      modifies this`pos
      ensures Valid() && old(pos) <= pos
      ensures match G.Redirs(old(Ahead()))
              case Fail(e) => out == Panic(e)
              case Ok(ws, rest) => Agrees(s, out, Ahead(), G.Ok(G.Wrapped(TreeOf(s, c), ws), rest))
      ensures out.Done? ==> D.Redirections(old(Ahead()), Ahead(), TreeOf(s, c), TreeOf(s, out.cmd))
    {
      var cmd := c;
      ghost var done: seq<G.Wrap> := [];
      ContinuesNothing(G.Redirs(Ahead()));
      var more := Peek("<>");
      while more
        invariant Valid() && old(pos) <= pos && SpansOk(s, cmd) && TreeOf(s, cmd) == G.Wrapped(TreeOf(s, c), done)
        invariant more == G.StartsRedir(Ahead())
        invariant Continues(G.Redirs(old(Ahead())), done, G.Redirs(Ahead()))
        decreases |s| - pos
      {
        ghost var ts := Ahead();
        var next := OneRedir(cmd);
        if next.Panic? {
          return next;
        }
        cmd := next.cmd;
        ghost var w := G.WrapOf(Code(ts[0]), ts[1].w);
        RedirsStep(G.Redirs(old(Ahead())), done, ts, w, Ahead());
        WrappedTwice(TreeOf(s, c), done, [w]);
        done := done + [w];
        more := Peek("<>");
      }
      assert done + [] == done;
      D.RedirsAreDerived(s[old(pos)..], TreeOf(s, c));
      out := Done(cmd);
    }

    /** parseexec: argc never reaches MAXARGS, so that argv[argc] stays inside the array. */
    method ParseExec() returns (out: Outcome)
      requires Valid()
      modifies this`pos
      ensures Valid() && old(pos) <= pos && Agrees(s, out, Ahead(), G.Command(old(Ahead())))
      decreases |s| - pos, 1
    {
      var block := Peek("(");
      if block {
        out := ParseBlock();
        return;
      }
      ghost var r := G.Redirs(Ahead());
      out := ParseRedirs(Exec([]));
      if out.Done? {
        assert Slices(s, []) == [];
        out := ParseArgs(out.cmd, [], r.value);
      }
    }

    /** The loop of parseexec; `ret` is the execcmd with `args` inside the redirections `wraps`. */
    method ParseArgs(ret: Cmd, ghost args0: seq<string>, ghost wraps0: seq<G.Wrap>) returns (out: Outcome)
      requires Valid() && SpansOk(s, ret) && args0 == [] && TreeOf(s, ret) == G.Wrapped(G.Exec(args0), wraps0)
      modifies this`pos
      ensures Valid() && old(pos) <= pos && Agrees(s, out, Ahead(), G.Args(args0, wraps0, old(Ahead())))
    {
      ghost var args, wraps := args0, wraps0;
      var argc := 0;
      out := Done(ret);
      var stop := Peek("|)&;");
      while !stop
        invariant Valid() && old(pos) <= pos && argc == |args| < G.MAXARGS && stop == G.StartsEnd(Ahead())
        invariant out.Done? && SpansOk(s, out.cmd) && TreeOf(s, out.cmd) == G.Wrapped(G.Exec(args), wraps)
        invariant G.Args(args0, wraps0, old(Ahead())) == G.Args(args, wraps, Ahead())
        decreases |s| - pos
      {
        var tok, q, eq := GetToken();
        if tok == NUL {
          break;
        }
        if tok != 'a' {
          return Panic(G.Syntax);
        }
        argc := argc + 1;
        if argc >= G.MAXARGS {
          return Panic(G.TooManyArgs);
        }
        ghost var r := G.Redirs(Ahead());
        out := OneArg(out.cmd, Span(q, eq), args, wraps);
        if out.Panic? {
          return;
        }
        args, wraps := args + [Slice(s, Span(q, eq))], wraps + r.value;
        stop := Peek("|)&;");
      }
    }

    /** A word of an execcmd, and the redirections after it. */
    method OneArg(ret: Cmd, w: Span, ghost args: seq<string>, ghost wraps: seq<G.Wrap>) returns (out: Outcome)
      requires Valid() && SpansOk(s, ret) && SpanOk(s, w) && TreeOf(s, ret) == G.Wrapped(G.Exec(args), wraps)
      modifies this`pos
      ensures Valid() && old(pos) <= pos
      ensures match G.Redirs(old(Ahead()))
              case Fail(e) => out == Panic(e)
              case Ok(ws, rest) =>
                Agrees(s, out, Ahead(), G.Ok(G.Wrapped(G.Exec(args + [Slice(s, w)]), wraps + ws), rest))
    {
      WithArgTree(s, ret, w);
      AddArgWrapped(G.Exec(args), wraps, Slice(s, w));
      ghost var r := G.Redirs(Ahead());
      out := ParseRedirs(WithArg(ret, w));
      if r.Ok? {
        WrappedTwice(G.Exec(args + [Slice(s, w)]), wraps, r.value);
      }
    }

    /** parseblock. */
    method ParseBlock() returns (out: Outcome)
      requires Valid() && G.Starts(Ahead(), '(')
      modifies this`pos
      ensures Valid() && old(pos) <= pos && Agrees(s, out, Ahead(), G.Block(old(Ahead())))
      decreases |s| - pos, 0
    {
      var open := Peek("(");
      if !open {
        assert false;
      }
      var _, _, _ := GetToken();
      out := ParseLine();
      if out.Panic? {
        return;
      }
      var close := Peek(")");
      if !close {
        return Panic(G.MissingParen);
      }
      var _, _, _ := GetToken();
      out := ParseRedirs(out.cmd);
    }

    /** parsepipe. */
    method ParsePipe() returns (out: Outcome)
      requires Valid()
      modifies this`pos
      ensures Valid() && old(pos) <= pos && Agrees(s, out, Ahead(), G.Pipeline(old(Ahead())))
      decreases |s| - pos, 2
    {
      out := ParseExec();
      if out.Panic? {
        return;
      }
      var bar := Peek("|");
      if bar {
        var _, _, _ := GetToken();
        var right := ParsePipe();
        out := if right.Panic? then right else Done(Pipe(out.cmd, right.cmd));
      }
    }

    /** parseline. */
    method ParseLine() returns (out: Outcome)
      requires Valid()
      modifies this`pos
      ensures Valid() && old(pos) <= pos && Agrees(s, out, Ahead(), G.Line(old(Ahead())))
      decreases |s| - pos, 3
    {
      out := ParsePipe();
      if out.Panic? {
        return;
      }
      ghost var t, ts := TreeOf(s, out.cmd), Ahead();
      var more := Peek("&");
      while more
        invariant Valid() && old(pos) <= pos && out.Done? && SpansOk(s, out.cmd) && more == G.Starts(Ahead(), '&')
        invariant G.Backs(TreeOf(s, out.cmd), Ahead()) == G.Backs(t, ts)
        decreases |s| - pos
      {
        var _, _, _ := GetToken();
        out := Done(Back(out.cmd));
        more := Peek("&");
      }
      assert G.Line(old(Ahead())) == G.Rest(TreeOf(s, out.cmd), Ahead());
      var semi := Peek(";");
      if semi {
        var _, _, _ := GetToken();
        var right := ParseLine();
        out := if right.Panic? then right else Done(List(out.cmd, right.cmd));
      }
    }

    /** parsecmd before nulterminate. */
    method ParseAll() returns (out: Outcome)
      requires Valid() && pos == 0
      modifies this`pos
      ensures Agrees(s, out, [], G.Parse(s))
    {
      assert s[0..] == s;
      out := ParseLine();
      if out.Panic? {
        return;
      }
      var _ := Peek("");
      if pos != |s| {
        out := Panic(G.Leftovers);
      }
    }
  }

  /** The result from here on, after the redirections in `done`. */
  predicate Continues(r0: G.Result<seq<G.Wrap>>, done: seq<G.Wrap>, r: G.Result<seq<G.Wrap>>) {
    match r
    case Fail(e) => r0 == G.Fail(e)
    case Ok(ws, rest) => r0 == G.Ok(done + ws, rest)
  }

  lemma ContinuesNothing(r: G.Result<seq<G.Wrap>>)
    ensures Continues(r, [], r)
  {
    match r {
      case Fail(_) =>
      case Ok(ws, _) => assert [] + ws == ws;
    }
  }

  lemma RedirsStep(r0: G.Result<seq<G.Wrap>>, done: seq<G.Wrap>, ts: seq<Tok>, w: G.Wrap, rest: seq<Tok>)
    requires Continues(r0, done, G.Redirs(ts)) && G.StartsRedir(ts) && |ts| >= 2 && ts[1].Word?
    requires w == G.WrapOf(Code(ts[0]), ts[1].w) && rest == ts[2..]
    ensures Continues(r0, done + [w], G.Redirs(rest))
  {
    match G.Redirs(rest) {
      case Fail(_) =>
      case Ok(ws, _) => assert done + ([w] + ws) == done + [w] + ws;
    }
  }

  lemma CodeTells(s: string)
    requires NoNul(s)
    ensures Lex(s) != [] ==> Code(Lex(s)[0]) != NUL && (Code(Lex(s)[0]) == 'a' <==> Lex(s)[0].Word?)
  {
    LexOk(s);
    if Lex(s) != [] {
      assert TokOk(Lex(s)[0]);
    }
  }

  /** The token at position `i`, as the code sees it. */
  lemma LexAt(s: string, i: nat)
    requires i < |s| && NoNul(s) && !White(s[i])
    ensures NoNul(s[i..])
    ensures var (t, n) := Lex1(s[i..]);
            && i + n <= |s| && NoNul(s[i + n..]) && Lex(s[i..]) == [t] + Lex(s[i + n..])
            && (t.Word? ==> SpanOk(s, Span(i, i + n)) && Slice(s, Span(i, i + n)) == t.w)
  {
    var (t, n) := Lex1(s[i..]);
    assert s[i..][n..] == s[i + n..];
    if t.Word? {
      forall k | i <= k < i + n ensures WordChar(s[k]) {
        assert s[k] == s[i..][k - i];
      }
      assert s[i..i + n] == s[i..][..n];
    }
  }

  lemma FirstIs(s: string)
    requires s != [] && NoNul(s) && !White(s[0])
    ensures Lex(s) != [] && First(Lex(s)[0]) == s[0]
  {
  }
}
