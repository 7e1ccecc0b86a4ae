/** The tokens of a shell line (gettoken and peek of user/sh.c), as a function of the
    text, and that they survive being written out. */
module ShellLexer {
  import opened ShellGrammar

  predicate Space(c: char) {
    c == ' ' || c == '\t' || c == '\r' || c == '\n' || c == '\U{0B}'
  }

  predicate Symbol(c: char) {
    c == '<' || c == '|' || c == '>' || c == '&' || c == ';' || c == '(' || c == ')'
  }

  predicate WordChar(c: char) {
    !Space(c) && !Symbol(c)
  }

  function Skip(s: string): (r: string)
    ensures |r| <= |s| && (r != "" ==> !Space(r[0]))
  {
    if s != "" && Space(s[0]) then Skip(s[1..]) else s
  }

  function WordLen(s: string): (n: nat)
    ensures n <= |s| && (forall i :: 0 <= i < n ==> WordChar(s[i])) && (n < |s| ==> !WordChar(s[n]))
  {
    if s != "" && WordChar(s[0]) then 1 + WordLen(s[1..]) else 0
  }

  // Length of the token at the front of s.
  function Len(s: string): (n: nat)
    requires s != "" && !Space(s[0])
    ensures 1 <= n <= |s|
  {
    if s[0] == '>' && |s| > 1 && s[1] == '>' then 2
    else if Symbol(s[0]) then 1
    else WordLen(s)
  }

  function First(s: string): Tok
    requires s != "" && !Space(s[0])
  {
    if Len(s) == 2 && s[0] == '>' then Append
    else if Symbol(s[0]) then Sym(s[0])
    else Word(s[..Len(s)])
  }

  function Toks(s: string): seq<Tok>
    decreases |s|
  {
    var t := Skip(s);
    if t == "" then [] else [First(t)] + Toks(t[Len(t)..])
  }

  // ---- Writing tokens ----

  // A word has characters, and none of them is white space or a symbol.
  predicate Proper(w: string) {
    w != "" && forall i :: 0 <= i < |w| ==> w[i] !in " \t\r\n\U{0B}<|>&;()"
  }

  lemma ProperChars(w: string)
    ensures Proper(w) <==> w != "" && forall i :: 0 <= i < |w| ==> WordChar(w[i])
  {
    forall i | 0 <= i < |w| ensures WordChar(w[i]) <==> w[i] !in " \t\r\n\U{0B}<|>&;()" {
      Classes(w[i]);
    }
  }

  lemma Classes(c: char)
    ensures Space(c) <==> c in " \t\r\n\U{0B}"
    ensures WordChar(c) <==> c !in " \t\r\n\U{0B}<|>&;()"
  {
    var white, all := " \t\r\n\U{0B}", " \t\r\n\U{0B}<|>&;()";
    assert white[0] == ' ' && white[1] == '\t' && white[2] == '\r' && white[3] == '\n' && white[4] == '\U{0B}';
    assert all[..5] == white && all[5..] == "<|>&;()";
    assert all[5] == '<' && all[6] == '|' && all[7] == '>' && all[8] == '&' && all[9] == ';' && all[10] == '('
      && all[11] == ')';
  }

  // ---- What lexing keeps ----

  // s without its white space.
  function Dense(s: string): string {
    if s == "" then "" else (if s[0] in " \t\r\n\U{0B}" then "" else [s[0]]) + Dense(s[1..])
  }

  function Glue(ts: seq<Tok>): string {
    if ts == [] then "" else Text(ts[0]) + Glue(ts[1..])
  }

  lemma {:induction false} DenseSkip(s: string)
    ensures Dense(Skip(s)) == Dense(s)
  {
    if s != "" && Space(s[0]) {
      Classes(s[0]);
      DenseSkip(s[1..]);
    }
  }

  lemma {:induction false} DenseFront(s: string, n: nat)
    requires n <= |s| && forall i :: 0 <= i < n ==> !Space(s[i])
    ensures Dense(s) == s[..n] + Dense(s[n..])
  {
    if n > 0 {
      Classes(s[0]);
      DenseFront(s[1..], n - 1);
      assert s[..n] == [s[0]] + s[1..][..n - 1] && s[n..] == s[1..][n - 1..];
    }
  }

  /** Nothing of a line but its white space is lost in its tokens. */
  lemma {:induction false} ToksGlue(s: string)
    ensures Glue(Toks(s)) == Dense(s)
    decreases |s|
  {
    var t := Skip(s);
    DenseSkip(s);
    if t != "" {
      ToksGlue(t[Len(t)..]);
      assert Text(First(t)) == t[..Len(t)];
      DenseFront(t, Len(t));
      var ts := [First(t)] + Toks(t[Len(t)..]);
      assert ts[1..] == Toks(t[Len(t)..]);
    }
  }

  predicate TokOk(t: Tok) {
    match t
    case Word(w) => Proper(w)
    case Sym(c) => Symbol(c)
    case Append => true
  }

  function Text(t: Tok): string {
    match t
    case Word(w) => w
    case Sym(c) => [c]
    case Append => ">>"
  }

  function Render(ts: seq<Tok>): string {
    if ts == [] then "" else Text(ts[0]) + " " + Render(ts[1..])
  }

  lemma {:induction false} WordLenOf(w: string, s: string)
    requires (forall i :: 0 <= i < |w| ==> WordChar(w[i])) && s != "" && !WordChar(s[0])
    ensures WordLen(w + s) == |w|
  {
    if w == "" {
      assert w + s == s;
    } else {
      assert (w + s)[1..] == w[1..] + s;
      WordLenOf(w[1..], s);
    }
  }

  lemma ToksText(t: Tok, s: string)
    requires TokOk(t)
    ensures Toks(Text(t) + " " + s) == [t] + Toks(s)
  {
    var x := Text(t) + " " + s;
    assert x == Text(t) + (" " + s);
    assert x[0] == Text(t)[0] && x[|Text(t)|] == ' ';
    if t.Word? {
      ProperChars(t.w);
      WordLenOf(t.w, " " + s);
    }
    assert Skip(x) == x && Len(x) == |Text(t)|;
    assert x[..Len(x)] == Text(t) && x[Len(x)..] == " " + s;
    assert First(x) == t;
    assert (" " + s)[1..] == s;
    assert Skip(" " + s) == Skip(s);
    assert Toks(" " + s) == Toks(s);
  }

  lemma {:induction false} ToksRender(ts: seq<Tok>)
    requires AllOk(ts)
    ensures Toks(Render(ts)) == ts
  {
    if ts != [] {
      ToksRender(ts[1..]);
      ToksText(ts[0], Render(ts[1..]));
      assert [ts[0]] + ts[1..] == ts;
    }
  }

  lemma {:induction false} ToksProper(s: string)
    ensures AllOk(Toks(s))
    decreases |s|
  {
    var t := Skip(s);
    if t != "" {
      ToksProper(t[Len(t)..]);
      if First(t).Word? { ProperChars(First(t).w); }
      assert TokOk(First(t));
    }
  }

  // ---- Trees of proper words ----

  predicate Words(c: Cmd<string>) {
    match c
    case Exec(a) => forall i :: 0 <= i < |a| ==> Proper(a[i])
    case Redir(a, f, _, _) => Words(a) && Proper(f)
    case Pipe(a, b) => Words(a) && Words(b)
    case List(a, b) => Words(a) && Words(b)
    case Back(a) => Words(a)
  }

  predicate AllOk(ts: seq<Tok>) {
    forall i :: 0 <= i < |ts| ==> TokOk(ts[i])
  }

  lemma {:induction false} ShowOk(c: Cmd<string>, l: nat)
    requires Words(c)
    ensures AllOk(Show(c, l))
    decreases c
  {
    match c
    case Exec(_) =>
    case Redir(a, f, m, d) =>
      ShowOk(a, 0);
      var tail := [RedirTok(m, d), Word(f)];
      assert TokOk(tail[0]) && TokOk(tail[1]);
      assert AllOk(Show(a, 0) + tail);
    case Pipe(a, b) =>
      ShowOk(a, 0);
      ShowOk(b, 1);
    case List(a, b) =>
      ShowOk(a, 2);
      ShowOk(b, 3);
    case Back(a) =>
      ShowOk(a, 2);
  }

  // A line for the tree c.
  function Print(c: Cmd<string>): string {
    Render(Show(c, 3))
  }

  /** Printing a command tree and parsing the line gives the tree back. */
  lemma PrintParse(c: Cmd<string>)
    requires Wf(c) && Words(c)
    ensures ReadAll(Toks(Print(c))) == Ok(c, [])
  {
    ShowOk(c, 3);
    ToksRender(Show(c, 3));
    ReadShow(c);
  }

  lemma {:induction false} FromProper(c: Cmd<string>, ok: set<string>)
    requires From(c, ok) && forall w :: w in ok ==> Proper(w)
    ensures Words(c)
  {
    match c
    case Exec(_) =>
    case Redir(a, _, _, _) => FromProper(a, ok);
    case Pipe(a, b) => FromProper(a, ok); FromProper(b, ok);
    case List(a, b) => FromProper(a, ok); FromProper(b, ok);
    case Back(a) => FromProper(a, ok);
  }

  /** Whatever line parses, its tree is made of at most nine proper words a command, and
      printing that tree gives a line that parses to the same tree. */
  lemma ParsePrintParse(s: string)
    requires ReadAll(Toks(s)).Ok?
    ensures var c := ReadAll(Toks(s)).cmd;
      Wf(c) && Words(c) && ReadAll(Toks(Print(c))) == Ok(c, [])
  {
    var ts := Toks(s);
    var ok := set i | 0 <= i < |ts| && ts[i].Word? :: ts[i].w;
    ToksProper(s);
    LineGood(ts, ok);
    FromProper(ReadAll(ts).cmd, ok);
    PrintParse(ReadAll(ts).cmd);
  }
}
