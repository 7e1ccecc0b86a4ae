/** The parser of user/sh.c on its line buffer: the cursor moves in place, trees hold
    pointers into the line, and nulterminate cuts the words out of it. */
module Shell {
  import opened ShellGrammar
  import opened ShellLexer

  // Where a word starts and where it ends in the line.
  datatype Span = Span(q: nat, eq: nat)

  datatype Parsed = Tree(cmd: Cmd<Span>) | Panic(e: Error)

  // ---- What the pointers mean ----

  function TextOf(line: string, p: Span): string {
    if p.q <= p.eq <= |line| then line[p.q..p.eq] else ""
  }

  function Erase(line: string, c: Cmd<Span>): Cmd<string> {
    match c
    case Exec(a) => Exec(seq(|a|, i requires 0 <= i < |a| => TextOf(line, a[i])))
    case Redir(a, f, m, d) => Redir(Erase(line, a), TextOf(line, f), m, d)
    case Pipe(a, b) => Pipe(Erase(line, a), Erase(line, b))
    case List(a, b) => List(Erase(line, a), Erase(line, b))
    case Back(a) => Back(Erase(line, a))
  }

  // p covers a whole word of the line.
  predicate WordAt(line: string, p: Span) {
    && p.q < p.eq <= |line| && (p.eq < |line| ==> !WordChar(line[p.eq]))
    && forall i :: p.q <= i < p.eq ==> WordChar(line[i])
  }

  predicate Spans(line: string, c: Cmd<Span>) {
    match c
    case Exec(a) => forall i :: 0 <= i < |a| ==> WordAt(line, a[i])
    case Redir(a, f, _, _) => Spans(line, a) && WordAt(line, f)
    case Pipe(a, b) => Spans(line, a) && Spans(line, b)
    case List(a, b) => Spans(line, a) && Spans(line, b)
    case Back(a) => Spans(line, a)
  }

  // Where the words of c end.
  function Ends(c: Cmd<Span>): set<nat> {
    match c
    case Exec(a) => set i | 0 <= i < |a| :: a[i].eq
    case Redir(a, f, _, _) => Ends(a) + {f.eq}
    case Pipe(a, b) => Ends(a) + Ends(b)
    case List(a, b) => Ends(a) + Ends(b)
    case Back(a) => Ends(a)
  }

  lemma {:induction false} AddArgErased(line: string, c: Cmd<Span>, p: Span)
    requires Spans(line, c) && WordAt(line, p)
    ensures Erase(line, AddArg(c, p)) == AddArg(Erase(line, c), TextOf(line, p)) && Spans(line, AddArg(c, p))
  {
    match c
    case Redir(a, _, _, _) => AddArgErased(line, a, p);
    case Exec(a) =>
      var x, y := Erase(line, AddArg(c, p)).argv, AddArg(Erase(line, c), TextOf(line, p)).argv;
      assert |x| == |y| && forall i :: 0 <= i < |x| ==> x[i] == y[i];
    case _ =>
  }

  // The C string that starts at q.
  function CString(buf: seq<char>, q: nat): string
    decreases |buf| - q
  {
    if q < |buf| && buf[q] != '\0' then [buf[q]] + CString(buf, q + 1) else ""
  }

  lemma {:induction false} CStringIs(buf: seq<char>, q: nat, e: nat)
    requires q <= e < |buf| && buf[e] == '\0' && forall i :: q <= i < e ==> buf[i] != '\0'
    ensures CString(buf, q) == buf[q..e]
    decreases e - q
  {
    if q < e {
      CStringIs(buf, q + 1, e);
      assert buf[q..e] == [buf[q]] + buf[q + 1..e];
    }
  }

  // The tree as the strings its pointers point to.
  function Strings(buf: seq<char>, c: Cmd<Span>): Cmd<string> {
    match c
    case Exec(a) => Exec(seq(|a|, i requires 0 <= i < |a| => CString(buf, a[i].q)))
    case Redir(a, f, m, d) => Redir(Strings(buf, a), CString(buf, f.q), m, d)
    case Pipe(a, b) => Pipe(Strings(buf, a), Strings(buf, b))
    case List(a, b) => List(Strings(buf, a), Strings(buf, b))
    case Back(a) => Back(Strings(buf, a))
  }

  lemma {:induction false} EndsAreBreaks(line: string, c: Cmd<Span>)
    requires Spans(line, c)
    ensures forall i :: i in Ends(c) ==> i == |line| || (i < |line| && !WordChar(line[i]))
  {
    match c
    case Exec(_) =>
    case Redir(a, _, _, _) => EndsAreBreaks(line, a);
    case Pipe(a, b) => EndsAreBreaks(line, a); EndsAreBreaks(line, b);
    case List(a, b) => EndsAreBreaks(line, a); EndsAreBreaks(line, b);
    case Back(a) => EndsAreBreaks(line, a);
  }

  // buf is the line with NULs put at ends, none of them inside a word.
  predicate CutAt(buf: seq<char>, line: string, ends: set<nat>) {
    && |line| < |buf| && buf[|line|] == '\0'
    && forall i :: 0 <= i < |line| ==>
        && line[i] != '\0' && buf[i] == (if i in ends then '\0' else line[i])
        && (i in ends ==> !WordChar(line[i]))
  }

  lemma WordCut(buf: seq<char>, line: string, ends: set<nat>, p: Span)
    requires CutAt(buf, line, ends) && WordAt(line, p) && p.eq in ends
    ensures CString(buf, p.q) == TextOf(line, p)
  {
    CStringIs(buf, p.q, p.eq);
    assert buf[p.q..p.eq] == line[p.q..p.eq];
  }

  lemma {:induction false} TreeCut(buf: seq<char>, line: string, ends: set<nat>, c: Cmd<Span>)
    requires CutAt(buf, line, ends) && Spans(line, c) && Ends(c) <= ends
    ensures Strings(buf, c) == Erase(line, c)
  {
    match c
    case Exec(a) =>
      forall i | 0 <= i < |a| ensures CString(buf, a[i].q) == TextOf(line, a[i]) {
        assert a[i].eq in Ends(c);
        WordCut(buf, line, ends, a[i]);
      }
      assert Strings(buf, c).argv == Erase(line, c).argv;
    case Redir(a, f, _, _) => TreeCut(buf, line, ends, a); WordCut(buf, line, ends, f);
    case Pipe(a, b) => TreeCut(buf, line, ends, a); TreeCut(buf, line, ends, b);
    case List(a, b) => TreeCut(buf, line, ends, a); TreeCut(buf, line, ends, b);
    case Back(a) => TreeCut(buf, line, ends, a);
  }

  /** nulterminate writes a NUL after every word of c and changes nothing else. */
  method Nulterminate(buf: array<char>, c: Cmd<Span>)
    requires forall i :: i in Ends(c) ==> i < buf.Length
    modifies buf
    ensures forall i :: 0 <= i < buf.Length ==> buf[i] == if i in Ends(c) then '\0' else old(buf[i])
    decreases c
  {
    match c
    case Exec(a) =>
      assert forall i :: 0 <= i < |a| ==> a[i].eq in Ends(c);
      var k := 0;
      while k < |a|
        invariant 0 <= k <= |a|
        invariant forall i :: 0 <= i < buf.Length && i !in Ends(c) ==> buf[i] == old(buf[i])
        invariant forall i :: 0 <= i < k ==> buf[a[i].eq] == '\0'
      {
        buf[a[k].eq] := '\0';
        k := k + 1;
      }
    case Redir(a, f, _, _) =>
      assert Ends(a) <= Ends(c) && f.eq in Ends(c);
      Nulterminate(buf, a);
      buf[f.eq] := '\0';
    case Pipe(a, b) =>
      assert Ends(a) <= Ends(c) && Ends(b) <= Ends(c);
      Nulterminate(buf, a);
      Nulterminate(buf, b);
    case List(a, b) =>
      assert Ends(a) <= Ends(c) && Ends(b) <= Ends(c);
      Nulterminate(buf, a);
      Nulterminate(buf, b);
    case Back(a) =>
      assert Ends(a) == Ends(c);
      Nulterminate(buf, a);
  }

  // The token at q of a line that ends at e.
  lemma FirstAt(buf: seq<char>, q: nat, e: nat)
    requires q < e <= |buf| && !Space(buf[q])
    ensures var t := buf[q..e];
      && t[Len(t)..] == buf[q + Len(t)..e]
      && Toks(t) == [First(t)] + Toks(t[Len(t)..])
      && var p := Span(q, q + Len(t));
      && (First(t).Word? ==> WordAt(buf[..e], p) && TextOf(buf[..e], p) == First(t).w)
  {
    var t, line := buf[q..e], buf[..e];
    assert Skip(t) == t;
    if First(t).Word? {
      var n := WordLen(t);
      assert forall i :: q <= i < q + n ==> line[i] == t[i - q];
      if q + n < e { assert line[q + n] == t[n]; }
      assert line[q..q + n] == t[..n];
    }
  }

  class Parser {
    const buf: array<char>
    const es: nat
    var s: nat

    ghost predicate Valid()
      reads this, buf
    {
      && s <= es < buf.Length && buf[es] == '\0'
      && forall i :: 0 <= i < es ==> buf[i] != '\0'
    }

    ghost function Line(): string
      requires es <= buf.Length
      reads buf
    {
      buf[..es]
    }

    ghost function Rest(): string
      requires s <= es <= buf.Length
      reads this, buf
    {
      buf[s..es]
    }

    ghost function Left(): seq<Tok>
      requires s <= es <= buf.Length
      reads this, buf
    {
      Toks(Rest())
    }

    // parsecmd's es: the first NUL.
    constructor (buf: array<char>)
      requires exists i :: 0 <= i < buf.Length && buf[i] == '\0'
      ensures Valid() && this.buf == buf && s == 0
    {
      var n := 0;
      while buf[n] != '\0'
        invariant n <= buf.Length && forall i :: 0 <= i < n ==> buf[i] != '\0'
        decreases buf.Length - n
      {
        n := n + 1;
      }
      this.buf, this.es, this.s := buf, n, 0;
    }

    // The loop both scanning functions begin with: past white space.
    method SkipSpace()
      requires Valid()
      modifies this`s
      ensures Valid() && old(s) <= s && Rest() == Skip(old(Rest())) && Left() == old(Left())
    {
      while s < es && Space(buf[s])
        invariant Valid() && old(s) <= s && Skip(Rest()) == Skip(old(Rest()))
      {
        assert Rest()[1..] == buf[s + 1..es];
        s := s + 1;
      }
      assert Skip(Rest()) == Rest();
    }

    method Peek(toks: string) returns (r: bool)
      requires Valid()
      modifies this`s
      ensures Valid() && Left() == old(Left())
      ensures (forall c :: c in toks ==> Symbol(c)) ==> r == Next(Left(), toks)
      ensures r ==> s < es
      ensures Left() == [] <==> s == es
    {
      SkipSpace();
      r := buf[s] != '\0' && buf[s] in toks;
    }

    // The word loop of gettoken.
    method SkipWord()
      requires Valid() && Rest() != "" && WordChar(Rest()[0])
      modifies this`s
      ensures Valid() && s == old(s) + WordLen(old(Rest()))
    {
      ghost var s0, n := s, WordLen(Rest());
      while s < es && !Space(buf[s]) && !Symbol(buf[s])
        invariant Valid() && s0 <= s <= s0 + n <= es
        invariant n == WordLen(buf[s0..es])
      {
        assert buf[s] == buf[s0..es][s - s0];
        s := s + 1;
      }
      if s < es { assert buf[s] == buf[s0..es][s - s0]; }
    }

    // gettoken's switch, on the first character of a token.
    method Switch() returns (ret: char)
      requires Valid() && Rest() != "" && !Space(Rest()[0])
      modifies this`s
      ensures Valid() && s == old(s) + Len(old(Rest())) && Names(ret, First(old(Rest())))
    {
      ret := buf[s];
      if ret == '>' {
        s := s + 1;
        if buf[s] == '>' {
          ret := '+';
          s := s + 1;
        }
      } else if Symbol(ret) {
        s := s + 1;
      } else {
        ret := 'a';
        SkipWord();
      }
    }

    method Token() returns (ret: char)
      requires Valid() && Rest() != "" && !Space(Rest()[0])
      modifies this`s
      ensures Valid() && old(s) <= s && old(Left()) != []
      ensures Left() == old(Left())[1..] && Names(ret, old(Left())[0])
      ensures var p := Span(old(s), s);
        old(Left())[0].Word? ==> WordAt(Line(), p) && TextOf(Line(), p) == old(Left())[0].w
    {
      FirstAt(buf[..], s, es);
      assert Rest() == buf[..][s..es] && Line() == buf[..][..es];
      ghost var n := s + Len(Rest());
      assert buf[..][n..es] == buf[n..es];
      ret := Switch();
    }

    /** gettoken: ret names the next token, q and eq delimit it, and the cursor is on
        the one after it. */
    method Gettoken() returns (ret: char, p: Span)
      requires Valid()
      modifies this`s
      ensures Valid() && old(s) <= s
      ensures old(Left()) == [] ==> ret == '\0' && Left() == []
      ensures old(Left()) != [] ==> Left() == old(Left())[1..] && Names(ret, old(Left())[0])
      ensures old(Left()) != [] && old(Left())[0].Word? ==> WordAt(Line(), p) && TextOf(Line(), p) == old(Left())[0].w
    {
      SkipSpace();
      var q := s;
      ret := buf[s];
      if ret != '\0' {
        ret := Token();
      }
      p := Span(q, s);
      SkipSpace();
    }

    // ---- The parser proper ----

    // r and the cursor are what the grammar asks for.
    ghost predicate Agrees(want: Res, r: Parsed)
      reads this, buf
    {
      && Valid()
      && match want
        case Err(e) => r == Panic(e)
        case Ok(c, ts) => r.Tree? && Spans(Line(), r.cmd) && Erase(Line(), r.cmd) == c && Left() == ts
    }

    // One turn of parseredirs' loop.
    method OneRedir(cmd: Cmd<Span>) returns (r: Parsed)
      requires Valid() && Spans(Line(), cmd) && Next(Left(), "<>")
      modifies this`s
      ensures Agrees(RedirStep(Erase(Line(), cmd), old(Left())), r)
    {
      var tok, _ := Gettoken();
      var tok2, p := Gettoken();
      if tok2 != 'a' {
        return Panic(MissingFile);
      }
      if tok == '<' {
        r := Tree(Redir(cmd, p, O_RDONLY, 0));
      } else if tok == '>' {
        r := Tree(Redir(cmd, p, O_WRONLY + O_CREATE + O_TRUNC, 1));
      } else {
        r := Tree(Redir(cmd, p, O_WRONLY + O_CREATE, 1));
      }
    }

    method ParseRedirs(cmd: Cmd<Span>) returns (r: Parsed)
      requires Valid() && Spans(Line(), cmd)
      modifies this`s
      ensures Agrees(Redirs(Erase(Line(), cmd), old(Left())), r)
    {
      var c := cmd;
      var more := Peek("<>");
      while more
        invariant Valid() && Spans(Line(), c) && more == Next(Left(), "<>")
        invariant Redirs(Erase(Line(), c), Left()) == Redirs(Erase(Line(), cmd), old(Left()))
        decreases |Left()|
      {
        RedirsStep(Erase(Line(), c), Left());
        r := OneRedir(c);
        if r.Panic? {
          return;
        }
        c := r.cmd;
        more := Peek("<>");
      }
      r := Tree(c);
    }

    // parseexec has taken the token t: a word, then the redirections after it.
    method OneArg(cmd: Cmd<Span>, argc: nat, tok: char, p: Span, ghost t: Tok) returns (r: Parsed)
      requires Valid() && Spans(Line(), cmd) && Names(tok, t)
      requires t.Word? ==> WordAt(Line(), p) && TextOf(Line(), p) == t.w
      modifies this`s
      ensures Agrees(ArgStep(Erase(Line(), cmd), argc, t, old(Left())), r)
    {
      if tok != 'a' {
        return Panic(Syntax);
      }
      if argc + 1 >= MAXARGS {
        return Panic(TooManyArgs);
      }
      AddArgErased(Line(), cmd, p);
      r := ParseRedirs(AddArg(cmd, p));
    }

    method ParseArgs(cmd: Cmd<Span>) returns (r: Parsed)
      requires Valid() && Spans(Line(), cmd)
      modifies this`s
      ensures Agrees(Args(Erase(Line(), cmd), 0, old(Left())), r)
    {
      r := Tree(cmd);
      var argc := 0;
      var stop := Peek("|)&;");
      while !stop
        invariant Valid() && r.Tree? && Spans(Line(), r.cmd) && stop == Next(Left(), "|)&;")
        invariant Args(Erase(Line(), r.cmd), argc, Left()) == Args(Erase(Line(), cmd), 0, old(Left()))
        decreases |Left()|
      {
        ghost var ts := Left();
        var tok, p := Gettoken();
        if tok == '\0' {
          break;
        }
        ArgsStep(Erase(Line(), r.cmd), argc, ts);
        r := OneArg(r.cmd, argc, tok, p, ts[0]);
        if r.Panic? {
          return;
        }
        argc := argc + 1;
        stop := Peek("|)&;");
      }
    }

    method ParseExec() returns (r: Parsed)
      requires Valid()
      modifies this`s
      ensures Agrees(ReadExec(old(Left())), r)
      decreases |Left()|, 1
    {
      var paren := Peek("(");
      if paren {
        r := ParseBlock();
        return;
      }
      assert Erase(Line(), Exec([])) == Exec([]);
      r := ParseRedirs(Exec([]));
      if r.Tree? {
        r := ParseArgs(r.cmd);
      }
    }

    method ParseBlock() returns (r: Parsed)
      requires Valid() && Next(Left(), "(")
      modifies this`s
      ensures Agrees(ReadBlock(old(Left())), r)
      decreases |Left()|, 0
    {
      var _, _ := Gettoken();
      r := ParseLine();
      if r.Panic? {
        return;
      }
      var close := Peek(")");
      if !close {
        return Panic(MissingParen);
      }
      var _, _ := Gettoken();
      r := ParseRedirs(r.cmd);
    }

    method ParsePipe() returns (r: Parsed)
      requires Valid()
      modifies this`s
      ensures Agrees(ReadPipe(old(Left())), r)
      decreases |Left()|, 2
    {
      r := ParseExec();
      if r.Panic? {
        return;
      }
      var more := Peek("|");
      if more {
        var _, _ := Gettoken();
        var right := ParsePipe();
        if right.Panic? {
          return right;
        }
        r := Tree(Pipe(r.cmd, right.cmd));
      }
    }

    method ParseLine() returns (r: Parsed)
      requires Valid()
      modifies this`s
      ensures Agrees(ReadLine(old(Left())), r)
      decreases |Left()|, 3
    {
      r := ParsePipe();
      if r.Panic? {
        return;
      }
      var more := Peek("&");
      while more
        invariant Valid() && r.Tree? && Spans(Line(), r.cmd) && more == Next(Left(), "&")
        invariant After(Erase(Line(), r.cmd), Left()) == ReadLine(old(Left()))
        invariant |Left()| <= |old(Left())|
        decreases |Left()|
      {
        var _, _ := Gettoken();
        r := Tree(Back(r.cmd));
        more := Peek("&");
      }
      more := Peek(";");
      if more {
        var _, _ := Gettoken();
        var right := ParseLine();
        if right.Panic? {
          return right;
        }
        r := Tree(List(r.cmd, right.cmd));
      }
    }

    /** parsecmd up to nulterminate: the tree the grammar gives the line, or its error. */
    method ParseAll() returns (r: Parsed)
      requires Valid() && s == 0
      modifies this`s
      ensures Valid()
      ensures match ReadAll(Toks(Line()))
        case Err(e) => r == Panic(e)
        case Ok(c, _) => r.Tree? && Spans(Line(), r.cmd) && Erase(Line(), r.cmd) == c
    {
      assert Rest() == Line();
      r := ParseLine();
      if r.Panic? {
        return;
      }
      var _ := Peek("");
      if s != es {
        return Panic(Leftovers);
      }
    }

    /** parsecmd: the tree's pointers, read as C strings, are the tree the grammar gives
        the line. */
    method ParseCmd() returns (r: Parsed)
      requires Valid() && s == 0
      modifies this`s, buf
      ensures match ReadAll(Toks(old(Line())))
        case Err(e) => r == Panic(e)
        case Ok(c, _) => r.Tree? && Strings(buf[..], r.cmd) == c
    {
      r := ParseAll();
      if r.Tree? {
        ghost var line := Line();
        EndsAreBreaks(line, r.cmd);
        Nulterminate(buf, r.cmd);
        TreeCut(buf[..], line, Ends(r.cmd), r.cmd);
      }
    }
  }

  function ArgStep(c: Cmd<string>, argc: nat, t: Tok, ts: seq<Tok>): (r: Res)
    ensures r.Ok? ==> |r.rest| <= |ts|
  {
    if !t.Word? then Err(Syntax)
    else if argc + 1 >= MAXARGS then Err(TooManyArgs)
    else Redirs(AddArg(c, t.w), ts)
  }

  lemma ArgsStep(c: Cmd<string>, argc: nat, ts: seq<Tok>)
    requires ts != [] && !Next(ts, "|)&;")
    ensures var r := ArgStep(c, argc, ts[0], ts[1..]);
      Args(c, argc, ts) == if r.Err? then r else Args(r.cmd, argc + 1, r.rest)
  {
  }

  function RedirStep(c: Cmd<string>, ts: seq<Tok>): Res
    requires ts != []
  {
    if |ts| < 2 || !ts[1].Word? then Err(MissingFile)
    else Ok(Redir(c, ts[1].w, Mode(ts[0]), Fd(ts[0])), ts[1..][1..])
  }

  lemma RedirsStep(c: Cmd<string>, ts: seq<Tok>)
    requires Next(ts, "<>")
    ensures var r := RedirStep(c, ts);
      Redirs(c, ts) == if r.Err? then r else Redirs(r.cmd, r.rest)
  {
    if |ts| >= 2 { assert ts[1..][1..] == ts[2..]; }
  }

  // gettoken's return value for each kind of token.
  predicate Names(ret: char, t: Tok) {
    match t
    case Word(_) => ret == 'a'
    case Sym(c) => ret == c && Symbol(c)
    case Append => ret == '+'
  }
}
