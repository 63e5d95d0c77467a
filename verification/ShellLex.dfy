/** The tokens of the shell (`xv6/sh.c`). */
module ShellLex {

  const NUL := '\0'

  predicate White(c: char) {
    c == ' ' || c == '\t' || c == '\r' || c == '\n' || c == 11 as char
  }

  predicate Symbol(c: char) {
    c == '<' || c == '|' || c == '>' || c == '&' || c == ';' || c == '(' || c == ')'
  }

  predicate WordChar(c: char) {
    !White(c) && !Symbol(c) && c != NUL
  }

  /** The two classes are the strings `whitespace` and `symbols` of the source. */
  lemma Classes(c: char)
    ensures White(c) <==> c in " \t\r\n\U{0B}"
    ensures Symbol(c) <==> c in "<|>&;()"
    ensures !(White(c) && Symbol(c))
  {
  }

  /** A line of input without its terminating NUL. */
  predicate NoNul(s: string) {
    forall i | 0 <= i < |s| :: s[i] != NUL
  }

  predicate IsWord(w: string) {
    w != [] && forall i | 0 <= i < |w| :: WordChar(w[i])
  }

  datatype Tok = Sym(c: char) | Append | Word(w: string)

  /** What gettoken returns for a token. */
  function Code(t: Tok): char {
    match t
    case Sym(c) => c
    case Append => '+'
    case Word(_) => 'a'
  }

  /** What peek sees of it. */
  function First(t: Tok): char {
    match t
    case Sym(c) => c
    case Append => '>'
    case Word(w) => if w == [] then NUL else w[0]
  }

  function WordLen(s: string): (n: nat)
    ensures n <= |s| && (forall i | 0 <= i < n :: WordChar(s[i])) && (n < |s| ==> !WordChar(s[n]))
  {
    if s == [] || !WordChar(s[0]) then 0 else 1 + WordLen(s[1..])
  }

  /** The token at the start of `s`, and its length. */
  function Lex1(s: string): (r: (Tok, nat))
    requires s != [] && !White(s[0]) && NoNul(s)
    ensures 0 < r.1 <= |s|
  {
    if s[0] == '>' then
      if |s| > 1 && s[1] == '>' then (Append, 2) else (Sym('>'), 1)
    else if Symbol(s[0]) then (Sym(s[0]), 1)
    else (Word(s[..WordLen(s)]), WordLen(s))
  }

  function Lex(s: string): seq<Tok>
    requires NoNul(s)
  {
    if s == [] then []
    else if White(s[0]) then Lex(s[1..])
    else var (t, n) := Lex1(s); [t] + Lex(s[n..])
  }

  predicate TokOk(t: Tok) {
    match t
    case Sym(c) => Symbol(c)
    case Append => true
    case Word(w) => IsWord(w)
  }

  predicate ToksOk(ts: seq<Tok>) {
    forall k | 0 <= k < |ts| :: TokOk(ts[k])
  }

  lemma {:induction false} LexOk(s: string)
    requires NoNul(s)
    ensures ToksOk(Lex(s))
  {
    if s != [] {
      if White(s[0]) {
        LexOk(s[1..]);
      } else {
        LexOk(s[Lex1(s).1..]);
      }
    }
  }

  // ----- printing tokens

  function Text(t: Tok): (s: string)
    ensures TokOk(t) ==> s != [] && !White(s[0])
  {
    match t
    case Sym(c) => [c]
    case Append => ">>"
    case Word(w) => w
  }

  /** Each token followed by a space. */
  function Spell(ts: seq<Tok>): string {
    if ts == [] then "" else Text(ts[0]) + " " + Spell(ts[1..])
  }

  lemma WordLenIs(w: string, s: string)
    requires IsWord(w) && s != [] && !WordChar(s[0])
    ensures WordLen(w + s) == |w|
  {
    var u := w + s;
    assert u[|w|] == s[0];
    assert forall i | 0 <= i < |w| :: u[i] == w[i];
  }

  lemma Lex1Is(t: Tok, s: string)
    requires TokOk(t) && NoNul(s)
    ensures NoNul(Text(t) + " " + s) && Lex1(Text(t) + " " + s) == (t, |Text(t)|)
  {
    var u := Text(t) + " " + s;
    match t {
      case Sym(c) =>
        assert u[0] == c && u[1] == ' ';
      case Append =>
        assert u[0] == '>' && u[1] == '>';
      case Word(w) =>
        assert u == w + (" " + s);
        assert u[0] == w[0];
        WordLenIs(w, " " + s);
        assert u[..|w|] == w;
    }
  }

  lemma LexNext(t: Tok, rest: string)
    requires TokOk(t) && NoNul(rest)
    ensures NoNul(Text(t) + " " + rest) && Lex(Text(t) + " " + rest) == [t] + Lex(rest)
  {
    Lex1Is(t, rest);
    var u := Text(t) + " " + rest;
    assert u[|Text(t)|..] == " " + rest;
    LexSpace(rest);
  }

  lemma LexSpace(rest: string)
    requires NoNul(rest)
    ensures NoNul(" " + rest) && Lex(" " + rest) == Lex(rest)
  {
    var v := " " + rest;
    assert v[0] == ' ' && v[1..] == rest;
  }

  /** Lexing undoes printing. */
  lemma {:induction false} LexSpell(ts: seq<Tok>)
    requires ToksOk(ts)
    ensures NoNul(Spell(ts)) && Lex(Spell(ts)) == ts
  {
    if ts != [] {
      LexSpell(ts[1..]);
      LexNext(ts[0], Spell(ts[1..]));
    }
  }
}
