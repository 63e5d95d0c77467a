/** nulterminate (`xv6/sh.c`): words become C strings in place, and none is cut short or changed. */
module ShellTerminate {
  import opened ShellLex
  import opened ShellCode
  import D = ShellDerive
  import G = ShellGrammar

  /** The positions that nulterminate writes: the ends of the words. */
  function Ends(c: Cmd): set<nat> {
    match c
    case Exec(argv) => set k | 0 <= k < |argv| :: argv[k].eq
    case Redir(d, file, _, _) => Ends(d) + {file.eq}
    case Pipe(l, r) => Ends(l) + Ends(r)
    case List(l, r) => Ends(l) + Ends(r)
    case Back(d) => Ends(d)
  }

  /** NULs at the positions in `ends`, and nothing else changed. */
  ghost predicate Marked(b: string, b': string, ends: set<nat>) {
    |b'| == |b| && forall k | 0 <= k < |b| :: b'[k] == if k in ends then NUL else b[k]
  }

  /** The C string at position `i`. */
  function CString(b: string, i: nat): string
    decreases |b| - i
  {
    if i < |b| && b[i] != NUL then [b[i]] + CString(b, i + 1) else ""
  }

  function CStrings(b: string, argv: seq<Span>): seq<string> {
    seq(|argv|, k requires 0 <= k < |argv| => CString(b, argv[k].q))
  }

  /** The tree as runcmd sees it: every word read as a C string. */
  function RunTree(b: string, c: Cmd): G.Tree {
    match c
    case Exec(argv) => G.Exec(CStrings(b, argv))
    case Redir(d, file, mode, fd) => G.Redir(RunTree(b, d), CString(b, file.q), mode, fd)
    case Pipe(l, r) => G.Pipe(RunTree(b, l), RunTree(b, r))
    case List(l, r) => G.List(RunTree(b, l), RunTree(b, r))
    case Back(d) => G.Back(RunTree(b, d))
  }

  /** The input line in its buffer, with its NUL. */
  ghost predicate Line(b: string, s: string) {
    |s| < |b| && b[..|s|] == s && b[|s|] == NUL
  }

  // ----- what is written is outside every word

  lemma {:induction false} EndsAreOutside(s: string, c: Cmd, e: nat)
    requires SpansOk(s, c) && e in Ends(c)
    ensures e <= |s| && (e < |s| ==> !WordChar(s[e]))
  {
    match c {
      case Exec(argv) =>
        var k :| 0 <= k < |argv| && argv[k].eq == e;
        assert SpanOk(s, argv[k]);
      case Redir(d, file, _, _) =>
        if e in Ends(d) {
          EndsAreOutside(s, d, e);
        }
      case Pipe(l, r) =>
        if e in Ends(l) {
          EndsAreOutside(s, l, e);
        } else {
          EndsAreOutside(s, r, e);
        }
      case List(l, r) =>
        if e in Ends(l) {
          EndsAreOutside(s, l, e);
        } else {
          EndsAreOutside(s, r, e);
        }
      case Back(d) =>
        EndsAreOutside(s, d, e);
    }
  }

  lemma {:induction false} CStringIs(b: string, i: nat, j: nat)
    requires i <= j < |b| && b[j] == NUL && forall k | i <= k < j :: b[k] != NUL
    ensures CString(b, i) == b[i..j]
    decreases j - i
  {
    if i < j {
      CStringIs(b, i + 1, j);
      assert b[i..j] == [b[i]] + b[i + 1..j];
    }
  }

  /** A word whose end is marked reads as itself, whatever other words are marked. */
  lemma WordReads(s: string, b: string, b': string, ends: set<nat>, w: Span)
    requires Line(b, s) && Marked(b, b', ends) && SpanOk(s, w) && w.eq in ends
    requires forall e | e in ends :: e <= |s| && (e < |s| ==> !WordChar(s[e]))
    ensures CString(b', w.q) == Slice(s, w)
  {
    assert b'[w.eq] == NUL;
    forall k | w.q <= k < w.eq ensures b'[k] == s[k] != NUL {
      assert WordChar(s[k]) && k !in ends;
    }
    CStringIs(b', w.q, w.eq);
    assert b'[w.q..w.eq] == s[w.q..w.eq];
  }

  lemma {:induction false} TreeReads(s: string, b: string, b': string, ends: set<nat>, c: Cmd)
    requires Line(b, s) && Marked(b, b', ends) && SpansOk(s, c) && Ends(c) <= ends
    requires forall e | e in ends :: e <= |s| && (e < |s| ==> !WordChar(s[e]))
    ensures RunTree(b', c) == TreeOf(s, c)
  {
    match c {
      case Exec(argv) =>
        forall k | 0 <= k < |argv| ensures CString(b', argv[k].q) == Slice(s, argv[k]) {
          assert argv[k].eq in Ends(c);
          WordReads(s, b, b', ends, argv[k]);
        }
        assert CStrings(b', argv) == Slices(s, argv);
      case Redir(d, file, _, _) =>
        TreeReads(s, b, b', ends, d);
        WordReads(s, b, b', ends, file);
      case Pipe(l, r) =>
        TreeReads(s, b, b', ends, l);
        TreeReads(s, b, b', ends, r);
      case List(l, r) =>
        TreeReads(s, b, b', ends, l);
        TreeReads(s, b, b', ends, r);
      case Back(d) =>
        TreeReads(s, b, b', ends, d);
    }
  }

  /** After nulterminate, every argv entry and file name read as a C string is exactly its token. */
  lemma TerminationIsHarmless(s: string, b: string, b': string, c: Cmd)
    requires Line(b, s) && Marked(b, b', Ends(c)) && SpansOk(s, c)
    ensures RunTree(b', c) == TreeOf(s, c)
  {
    forall e | e in Ends(c) ensures e <= |s| && (e < |s| ==> !WordChar(s[e])) {
      EndsAreOutside(s, c, e);
    }
    TreeReads(s, b, b', Ends(c), c);
  }

  lemma MarkedTwice(b0: string, b1: string, b2: string, d: set<nat>, e: set<nat>)
    requires Marked(b0, b1, d) && Marked(b1, b2, e)
    ensures Marked(b0, b2, d + e)
  {
  }

  /** nulterminate. */
  method Nulterminate(buf: array<char>, c: Cmd)
    requires forall e | e in Ends(c) :: e < buf.Length
    modifies buf
    ensures Marked(old(buf[..]), buf[..], Ends(c))
    decreases c
  {
    ghost var b0 := buf[..];
    match c {
      case Exec(argv) =>
        for i := 0 to |argv|
          invariant Marked(b0, buf[..], Ends(Exec(argv[..i])))
        {
          assert argv[i].eq in Ends(c);
          buf[argv[i].eq] := NUL;
          assert argv[..i + 1] == argv[..i] + [argv[i]];
          EndsStep(argv[..i], argv[i]);
        }
        assert argv[..|argv|] == argv;
      case Redir(d, file, _, _) =>
        assert Ends(d) <= Ends(c) && file.eq in Ends(c);
        Nulterminate(buf, d);
        buf[file.eq] := NUL;
      case Pipe(l, r) =>
        assert Ends(l) <= Ends(c) && Ends(r) <= Ends(c);
        Nulterminate(buf, l);
        ghost var b1 := buf[..];
        Nulterminate(buf, r);
        MarkedTwice(b0, b1, buf[..], Ends(l), Ends(r));
      case List(l, r) =>
        assert Ends(l) <= Ends(c) && Ends(r) <= Ends(c);
        Nulterminate(buf, l);
        ghost var b1 := buf[..];
        Nulterminate(buf, r);
        MarkedTwice(b0, b1, buf[..], Ends(l), Ends(r));
      case Back(d) =>
        assert Ends(d) <= Ends(c);
        Nulterminate(buf, d);
    }
  }

  lemma EndsStep(argv: seq<Span>, w: Span)
    ensures Ends(Exec(argv + [w])) == Ends(Exec(argv)) + {w.eq}
  {
    var more := argv + [w];
    forall e: nat ensures e in Ends(Exec(more)) <==> e in Ends(Exec(argv)) + {w.eq} {
      if e in Ends(Exec(argv)) {
        var k :| 0 <= k < |argv| && argv[k].eq == e;
        assert more[k].eq == e;
      }
      if e == w.eq {
        assert more[|argv|].eq == e;
      }
    }
  }

  /** The line has a derivation exactly if the parser accepts it. */
  lemma ParsedIsDerived(s: string)
    requires NoNul(s)
    ensures G.Parse(s).Ok? <==> exists t :: D.Derives(Lex(s), t)
    ensures G.Parse(s).Ok? ==> D.Derives(Lex(s), G.Parse(s).value)
  {
    if G.Parse(s).Ok? {
      D.ParseIsGrammar(s, G.Parse(s).value);
    }
    if t :| D.Derives(Lex(s), t) {
      D.ParseIsGrammar(s, t);
    }
  }

  /**
   parsecmd: parses the line in the buffer and terminates its words in place.  The commands that
   will run are the parse tree of the line that was there.
   */
  method ParseCmd(buf: array<char>, n: nat) returns (out: Outcome)
    requires n < buf.Length && buf[n] == NUL && NoNul(buf[..n])
    modifies buf
    ensures match G.Parse(old(buf[..n]))
            case Fail(e) => out == Panic(e) && buf[..] == old(buf[..])
            case Ok(t, _) =>
              && out.Done? && RunTree(buf[..], out.cmd) == t
              && Marked(old(buf[..]), buf[..], Ends(out.cmd)) && forall e | e in Ends(out.cmd) :: e <= n
    ensures out.Done? <==> exists t :: D.Derives(Lex(old(buf[..n])), t)
    ensures out.Done? ==> D.Derives(Lex(old(buf[..n])), RunTree(buf[..], out.cmd))
  {
    ghost var b, s := buf[..], buf[..n];
    var parser := new Parser(buf[..n]);
    out := parser.ParseAll();
    ParsedIsDerived(s);
    if out.Done? {
      forall e | e in Ends(out.cmd) ensures e <= n {
        EndsAreOutside(s, out.cmd, e);
      }
      Nulterminate(buf, out.cmd);
      TerminationIsHarmless(s, b, buf[..], out.cmd);
    }
  }
}
