/** The grammar of user/sh.c over tokens: a recursive-descent reading of a token
    list, the token list of a command tree, and that the first undoes the second. */
module ShellGrammar {

  datatype Tok = Word(w: string) | Sym(c: char) | Append

  /** struct cmd and its variants. W is a string, or a pair of pointers into the line. */
  datatype Cmd<W> =
    | Exec(argv: seq<W>)
    | Redir(cmd: Cmd<W>, file: W, mode: nat, fd: nat)
    | Pipe(left: Cmd<W>, right: Cmd<W>)
    | List(left: Cmd<W>, right: Cmd<W>)
    | Back(cmd: Cmd<W>)

  datatype Error = Syntax | MissingFile | TooManyArgs | MissingParen | Leftovers

  datatype Res = Ok(cmd: Cmd<string>, rest: seq<Tok>) | Err(e: Error)

  const MAXARGS: nat := 10
  const O_RDONLY: nat := 0
  const O_WRONLY: nat := 1
  const O_CREATE: nat := 0x200
  const O_TRUNC: nat := 0x400

  // ---- Reading ----

  // peek: the next token starts with a character of set.
  predicate Next(ts: seq<Tok>, chars: string) {
    ts != [] && match ts[0]
      case Word(_) => false
      case Sym(c) => c in chars
      case Append => '>' in chars
  }

  function Mode(t: Tok): nat {
    if t == Sym('<') then O_RDONLY
    else if t == Append then O_WRONLY + O_CREATE
    else O_WRONLY + O_CREATE + O_TRUNC
  }

  function Fd(t: Tok): nat {
    if t == Sym('<') then 0 else 1
  }

  // A word joins the argv of the exec node under the redirections.
  function AddArg<W>(c: Cmd<W>, w: W): Cmd<W> {
    match c
    case Exec(a) => Exec(a + [w])
    case Redir(c', f, m, d) => Redir(AddArg(c', w), f, m, d)
    case _ => c
  }

  function Redirs(c: Cmd<string>, ts: seq<Tok>): (r: Res)
    ensures r.Ok? ==> |r.rest| <= |ts|
    decreases |ts|
  {
    if !Next(ts, "<>") then Ok(c, ts)
    else if |ts| < 2 || !ts[1].Word? then Err(MissingFile)
    else Redirs(Redir(c, ts[1].w, Mode(ts[0]), Fd(ts[0])), ts[2..])
  }

  function Args(c: Cmd<string>, argc: nat, ts: seq<Tok>): (r: Res)
    ensures r.Ok? ==> |r.rest| <= |ts|
    decreases |ts|
  {
    if Next(ts, "|)&;") || ts == [] then Ok(c, ts)
    else if !ts[0].Word? then Err(Syntax)
    else if argc + 1 >= MAXARGS then Err(TooManyArgs)
    else
      var r := Redirs(AddArg(c, ts[0].w), ts[1..]);
      if r.Err? then r else Args(r.cmd, argc + 1, r.rest)
  }

  function ReadExec(ts: seq<Tok>): (r: Res)
    ensures r.Ok? ==> |r.rest| <= |ts|
    decreases |ts|, 1
  {
    if Next(ts, "(") then ReadBlock(ts)
    else
      var r := Redirs(Exec([]), ts);
      if r.Err? then r else Args(r.cmd, 0, r.rest)
  }

  function ReadBlock(ts: seq<Tok>): (r: Res)
    requires Next(ts, "(")
    ensures r.Ok? ==> |r.rest| <= |ts|
    decreases |ts|, 0
  {
    var r := ReadLine(ts[1..]);
    if r.Err? then r
    else if !Next(r.rest, ")") then Err(MissingParen)
    else Redirs(r.cmd, r.rest[1..])
  }

  function ReadPipe(ts: seq<Tok>): (r: Res)
    ensures r.Ok? ==> |r.rest| <= |ts|
    decreases |ts|, 2
  {
    var r := ReadExec(ts);
    if r.Err? || !Next(r.rest, "|") then r
    else
      var s := ReadPipe(r.rest[1..]);
      if s.Err? then s else Ok(Pipe(r.cmd, s.cmd), s.rest)
  }

  function ReadLine(ts: seq<Tok>): (r: Res)
    ensures r.Ok? ==> |r.rest| <= |ts|
    decreases |ts|, 4
  {
    var r := ReadPipe(ts);
    if r.Err? then r else After(r.cmd, r.rest)
  }

  // The rest of a line once its first pipeline c is read: &s, then perhaps ; and more.
  function After(c: Cmd<string>, ts: seq<Tok>): (r: Res)
    ensures r.Ok? ==> |r.rest| <= |ts|
    decreases |ts|, 3
  {
    if Next(ts, "&") then After(Back(c), ts[1..])
    else if Next(ts, ";") then
      var s := ReadLine(ts[1..]);
      if s.Err? then s else Ok(List(c, s.cmd), s.rest)
    else Ok(c, ts)
  }

  // A whole command line.
  function ReadAll(ts: seq<Tok>): Res {
    var r := ReadLine(ts);
    if r.Ok? && r.rest != [] then Err(Leftovers) else r
  }

  // ---- Writing ----

  // The token of a redirection.
  function RedirTok(mode: nat, fd: nat): Tok {
    if fd == 0 then Sym('<') else if mode == O_WRONLY + O_CREATE then Append else Sym('>')
  }

  // How loosely a command binds: exec and redirections least, lists most.
  function Level(c: Cmd<string>): nat {
    match c
    case List(_, _) => 3
    case Back(_) => 2
    case Pipe(_, _) => 1
    case _ => 0
  }

  // The tokens of c where a command of level at most l is wanted.
  function Show(c: Cmd<string>, l: nat): seq<Tok>
    decreases c, 1
  {
    if Level(c) > l then [Sym('(')] + Bare(c) + [Sym(')')] else Bare(c)
  }

  function Bare(c: Cmd<string>): seq<Tok>
    decreases c, 0
  {
    match c
    case List(a, b) => Show(a, 2) + [Sym(';')] + Show(b, 3)
    case Back(a) => Show(a, 2) + [Sym('&')]
    case Pipe(a, b) => Show(a, 0) + [Sym('|')] + Show(b, 1)
    case Redir(a, f, m, d) => Show(a, 0) + [RedirTok(m, d), Word(f)]
    case Exec(a) => Words(a)
  }

  function Words(a: seq<string>): (r: seq<Tok>)
    ensures |r| == |a|
  {
    seq(|a|, i requires 0 <= i < |a| => Word(a[i]))
  }

  // ---- The trees the shell can build ----

  predicate ModeOk(m: nat, d: nat) {
    || (m == O_RDONLY && d == 0)
    || (m == O_WRONLY + O_CREATE + O_TRUNC && d == 1)
    || (m == O_WRONLY + O_CREATE && d == 1)
  }

  predicate Wf(c: Cmd<string>) {
    match c
    case Exec(a) => |a| < MAXARGS
    case Redir(a, _, m, d) => Wf(a) && ModeOk(m, d)
    case Pipe(a, b) => Wf(a) && Wf(b)
    case List(a, b) => Wf(a) && Wf(b)
    case Back(a) => Wf(a)
  }

  // ---- Reading what was written ----

  function Core(c: Cmd<string>): Cmd<string> {
    if c.Redir? then Core(c.cmd) else c
  }

  // What parseexec does with ts once it has read c, or c and its closing parenthesis.
  function Continue(c: Cmd<string>, ts: seq<Tok>): Res {
    var r := Redirs(c, ts);
    if r.Err? || !Core(c).Exec? then r else Args(r.cmd, |Core(c).argv|, r.rest)
  }

  // Nothing after here belongs to the command before.
  predicate Stop(ts: seq<Tok>) {
    ts == [] || Next(ts, "|)&;")
  }

  lemma {:induction false} ArgsWords(a: seq<string>, i: nat, ts: seq<Tok>)
    requires i < |a| < MAXARGS
    ensures Args(Exec(a[..i]), i, Words(a)[i..] + ts) == Continue(Exec(a), ts)
    decreases |a| - i
  {
    var us := Words(a)[i..] + ts;
    assert us[0] == Word(a[i]);
    assert us[1..] == Words(a)[i + 1..] + ts;
    assert a[..i] + [a[i]] == a[..i + 1];
    if i + 1 < |a| {
      assert us[1] == Word(a[i + 1]);
      ArgsWords(a, i + 1, ts);
    } else {
      assert a[..i + 1] == a && us[1..] == ts;
    }
  }

  lemma ReadWords(a: seq<string>, ts: seq<Tok>)
    requires |a| < MAXARGS && !Next(ts, "(")
    ensures ReadExec(Words(a) + ts) == Continue(Exec(a), ts)
  {
    if a == [] {
      assert Words(a) + ts == ts;
    } else {
      assert (Words(a) + ts)[0] == Word(a[0]);
      ArgsWords(a, 0, ts);
      assert a[..0] == [] && Words(a)[0..] == Words(a);
    }
  }

  lemma ContinueRedir(c: Cmd<string>, f: string, m: nat, d: nat, ts: seq<Tok>)
    requires ModeOk(m, d)
    ensures Continue(c, [RedirTok(m, d), Word(f)] + ts) == Continue(Redir(c, f, m, d), ts)
  {
    var us := [RedirTok(m, d), Word(f)] + ts;
    assert us[2..] == ts;
  }

  lemma StopContinue(c: Cmd<string>, ts: seq<Tok>)
    requires Stop(ts)
    ensures Continue(c, ts) == Ok(c, ts)
  {
  }

  lemma Assoc(a: seq<Tok>, b: seq<Tok>, c: seq<Tok>)
    ensures (a + b) + c == a + (b + c)
  {
  }

  lemma Regroup(a: seq<Tok>, x: Tok, b: seq<Tok>, ts: seq<Tok>)
    ensures a + [x] + b + ts == a + ([x] + b + ts)
    ensures ([x] + b + ts)[0] == x && ([x] + b + ts)[1..] == b + ts
  {
  }

  // A parenthesised command read back.
  lemma ReadParens(c: Cmd<string>, ts: seq<Tok>)
    requires ReadLine(Bare(c) + ([Sym(')')] + ts)) == Ok(c, [Sym(')')] + ts) && !Core(c).Exec? && !c.Redir?
    ensures ReadExec([Sym('(')] + Bare(c) + [Sym(')')] + ts) == Continue(c, ts)
  {
    var us := [Sym('(')] + Bare(c) + [Sym(')')] + ts;
    assert us[1..] == Bare(c) + ([Sym(')')] + ts);
    assert ([Sym(')')] + ts)[1..] == ts;
  }

  lemma {:induction false} ReadShowExec(c: Cmd<string>, ts: seq<Tok>)
    requires Wf(c) && !Next(ts, "(")
    ensures ReadExec(Show(c, 0) + ts) == Continue(c, ts)
    decreases c, 4
  {
    match c
    case Exec(a) => ReadWords(a, ts);
    case Redir(a, f, m, d) =>
      var us := [RedirTok(m, d), Word(f)] + ts;
      ReadShowExec(a, us);
      Assoc(Show(a, 0), [RedirTok(m, d), Word(f)], ts);
      ContinueRedir(a, f, m, d, ts);
    case _ =>
      ReadBare(c, [Sym(')')] + ts);
      ReadParens(c, ts);
  }

  lemma {:induction false} ReadShowPipe(c: Cmd<string>, ts: seq<Tok>)
    requires Wf(c) && Stop(ts) && !Next(ts, "|")
    ensures ReadPipe(Show(c, 1) + ts) == Ok(c, ts)
    decreases c, 5
  {
    match c
    case Pipe(a, b) => ReadBarePipe(c, ts);
    case _ =>
      assert Show(c, 1) == Show(c, 0);
      ReadShowExec(c, ts);
      StopContinue(c, ts);
  }

  lemma {:induction false} ReadBarePipe(c: Cmd<string>, ts: seq<Tok>)
    requires Wf(c) && Stop(ts) && !Next(ts, "|") && c.Pipe?
    ensures ReadPipe(Bare(c) + ts) == Ok(c, ts)
    decreases c, 2
  {
    var us := [Sym('|')] + Show(c.right, 1) + ts;
    Regroup(Show(c.left, 0), Sym('|'), Show(c.right, 1), ts);
    ReadShowExec(c.left, us);
    StopContinue(c.left, us);
    ReadShowPipe(c.right, ts);
  }

  lemma {:induction false} ReadShowBacks(c: Cmd<string>, ts: seq<Tok>)
    requires Wf(c) && Stop(ts) && !Next(ts, "|")
    ensures ReadLine(Show(c, 2) + ts) == After(c, ts)
    decreases c, 6
  {
    match c
    case Back(a) =>
      var us := [Sym('&')] + ts;
      ReadShowBacks(a, us);
      Assoc(Show(a, 2), [Sym('&')], ts);
      assert us[1..] == ts;
    case _ =>
      assert Show(c, 2) == Show(c, 1);
      ReadShowPipe(c, ts);
  }

  lemma {:induction false} ReadBare(c: Cmd<string>, ts: seq<Tok>)
    requires Wf(c) && (ts == [] || Next(ts, ")")) && Level(c) >= 1
    ensures ReadLine(Bare(c) + ts) == Ok(c, ts)
    decreases c, 3
  {
    match c
    case List(a, b) =>
      var us := [Sym(';')] + Show(b, 3) + ts;
      Regroup(Show(a, 2), Sym(';'), Show(b, 3), ts);
      ReadShowBacks(a, us);
      ReadShowLine(b, ts);
    case Back(a) =>
      var us := [Sym('&')] + ts;
      ReadShowBacks(a, us);
      Assoc(Show(a, 2), [Sym('&')], ts);
      assert us[1..] == ts;
    case Pipe(_, _) => ReadBarePipe(c, ts);
  }

  lemma {:induction false} ReadShowLine(c: Cmd<string>, ts: seq<Tok>)
    requires Wf(c) && (ts == [] || Next(ts, ")"))
    ensures ReadLine(Show(c, 3) + ts) == Ok(c, ts)
    decreases c, 7
  {
    if Level(c) >= 1 {
      ReadBare(c, ts);
    } else {
      assert Show(c, 3) == Show(c, 2);
      ReadShowBacks(c, ts);
    }
  }

  /** Any command tree with at most nine arguments a command is read back from its tokens. */
  lemma ReadShow(c: Cmd<string>)
    requires Wf(c)
    ensures ReadAll(Show(c, 3)) == Ok(c, [])
  {
    ReadShowLine(c, []);
    assert Show(c, 3) + [] == Show(c, 3);
  }

  // ---- What is read is well-formed ----

  // All words of c satisfy Proper, whatever that is, if those of the tokens do.
  predicate Fed(ts: seq<Tok>, ok: set<string>) {
    forall i :: 0 <= i < |ts| && ts[i].Word? ==> ts[i].w in ok
  }

  predicate From(c: Cmd<string>, ok: set<string>) {
    match c
    case Exec(a) => forall i :: 0 <= i < |a| ==> a[i] in ok
    case Redir(a, f, _, _) => From(a, ok) && f in ok
    case Pipe(a, b) => From(a, ok) && From(b, ok)
    case List(a, b) => From(a, ok) && From(b, ok)
    case Back(a) => From(a, ok)
  }

  // c is read from ts: well-formed, and every word of it is a word of the line.
  predicate Good(r: Res, ok: set<string>) {
    r.Ok? ==> Wf(r.cmd) && From(r.cmd, ok) && Fed(r.rest, ok)
  }

  lemma {:induction false} AddArgGood(c: Cmd<string>, w: string, ok: set<string>)
    requires Core(c).Exec? && Wf(c) && From(c, ok) && w in ok && |Core(c).argv| + 1 < MAXARGS
    ensures var d := AddArg(c, w); Wf(d) && From(d, ok) && Core(d) == Exec(Core(c).argv + [w])
  {
    if c.Redir? { AddArgGood(c.cmd, w, ok); }
  }

  lemma {:induction false} RedirsGood(c: Cmd<string>, ts: seq<Tok>, ok: set<string>)
    requires Wf(c) && From(c, ok) && Fed(ts, ok)
    ensures Good(Redirs(c, ts), ok)
    ensures Redirs(c, ts).Ok? ==> Core(Redirs(c, ts).cmd) == Core(c)
    decreases |ts|
  {
    if Next(ts, "<>") && |ts| >= 2 && ts[1].Word? {
      RedirsGood(Redir(c, ts[1].w, Mode(ts[0]), Fd(ts[0])), ts[2..], ok);
    }
  }

  lemma {:induction false} ArgsGood(c: Cmd<string>, argc: nat, ts: seq<Tok>, ok: set<string>)
    requires Core(c).Exec? && argc == |Core(c).argv| && Wf(c) && From(c, ok) && Fed(ts, ok)
    ensures Good(Args(c, argc, ts), ok)
    decreases |ts|
  {
    if !Next(ts, "|)&;") && ts != [] && ts[0].Word? && argc + 1 < MAXARGS {
      var d := AddArg(c, ts[0].w);
      AddArgGood(c, ts[0].w, ok);
      RedirsGood(d, ts[1..], ok);
      var r := Redirs(d, ts[1..]);
      if r.Ok? { ArgsGood(r.cmd, argc + 1, r.rest, ok); }
    }
  }

  lemma {:induction false} ExecGood(ts: seq<Tok>, ok: set<string>)
    requires Fed(ts, ok)
    ensures Good(ReadExec(ts), ok)
    decreases |ts|, 1
  {
    if Next(ts, "(") {
      LineGood(ts[1..], ok);
      var r := ReadLine(ts[1..]);
      if r.Ok? && Next(r.rest, ")") { RedirsGood(r.cmd, r.rest[1..], ok); }
    } else {
      RedirsGood(Exec([]), ts, ok);
      var r := Redirs(Exec([]), ts);
      if r.Ok? { ArgsGood(r.cmd, 0, r.rest, ok); }
    }
  }

  lemma {:induction false} PipeGood(ts: seq<Tok>, ok: set<string>)
    requires Fed(ts, ok)
    ensures Good(ReadPipe(ts), ok)
    decreases |ts|, 2
  {
    ExecGood(ts, ok);
    var r := ReadExec(ts);
    if r.Ok? && Next(r.rest, "|") { PipeGood(r.rest[1..], ok); }
  }

  lemma {:induction false} LineGood(ts: seq<Tok>, ok: set<string>)
    requires Fed(ts, ok)
    ensures Good(ReadLine(ts), ok)
    decreases |ts|, 4
  {
    PipeGood(ts, ok);
    var r := ReadPipe(ts);
    if r.Ok? { AfterGood(r.cmd, r.rest, ok); }
  }

  lemma {:induction false} AfterGood(c: Cmd<string>, ts: seq<Tok>, ok: set<string>)
    requires Fed(ts, ok) && Wf(c) && From(c, ok)
    ensures Good(After(c, ts), ok)
    decreases |ts|, 3
  {
    if Next(ts, "&") {
      AfterGood(Back(c), ts[1..], ok);
    } else if Next(ts, ";") {
      LineGood(ts[1..], ok);
    }
  }
}
