/** user/grep.c: the matcher against a declarative reading of its patterns, and the line
    loop against the lines of its input. */
module Grep {
  import opened Common

  // ---- What a pattern means ----

  datatype Item = One(c: char) | Star(c: char) | End

  // A pattern after its ^, item by item; $ is special only at the very end.
  function Items(re: string): seq<Item>
    decreases |re|
  {
    if re == "" then []
    else if |re| >= 2 && re[1] == '*' then [Star(re[0])] + Items(re[2..])
    else if re == "$" then [End]
    else [One(re[0])] + Items(re[1..])
  }

  predicate Fits(c: char, x: char) {
    c == '.' || c == x
  }

  // The piece of text that an item stands for.
  predicate Stands(it: Item, piece: string) {
    match it
    case One(c) => |piece| == 1 && Fits(c, piece[0])
    case Star(c) => forall i :: 0 <= i < |piece| ==> Fits(c, piece[i])
    case End => piece == ""
  }

  predicate Each(its: seq<Item>, pieces: seq<string>) {
    |pieces| == |its| && forall i :: 0 <= i < |its| ==> Stands(its[i], pieces[i])
  }

  function Cat(pieces: seq<string>): string {
    if pieces == [] then "" else pieces[0] + Cat(pieces[1..])
  }

  // pieces of text, one for each item, then the rest; nothing is left after a $.
  predicate Splits(its: seq<Item>, text: string, pieces: seq<string>, rest: string) {
    Each(its, pieces) && text == Cat(pieces) + rest && (End in its ==> rest == "")
  }

  /** The items match at the beginning of text. */
  ghost predicate At(its: seq<Item>, text: string) {
    exists pieces, rest :: Splits(its, text, pieces, rest)
  }

  /** The pattern matches somewhere in text, or at its beginning if it starts with ^. */
  ghost predicate Matches(re: string, text: string) {
    if re != "" && re[0] == '^' then At(Items(re[1..]), text)
    else exists i :: 0 <= i <= |text| && At(Items(re), text[i..])
  }

  // ---- One item at a time ----

  lemma AtNil(text: string)
    ensures At([], text)
  {
    assert Splits([], text, [], text);
  }

  lemma AtEnd(text: string)
    ensures At([End], text) <==> text == ""
  {
    if text == "" { assert Splits([End], text, [""], ""); }
    if At([End], text) {
      var pieces, rest :| Splits([End], text, pieces, rest);
      assert End in [End];
      assert pieces == [""] && Cat([""]) == "" + Cat([""][1..]);
    }
  }

  // A first piece that its item stands for, and a match of what follows.
  lemma AtCons(it: Item, its: seq<Item>, piece: string, text: string)
    requires Stands(it, piece) && At(its, text) && (it.End? ==> text == "")
    ensures At([it] + its, piece + text)
  {
    var pieces, rest :| Splits(its, text, pieces, rest);
    var all := [piece] + pieces;
    assert all[1..] == pieces;
    assert piece + text == Cat(all) + rest;
    assert it.End? ==> rest == "" by { if it.End? { assert |Cat(pieces) + rest| == 0; } }
    assert End in [it] + its ==> it.End? || End in its;
    assert Splits([it] + its, piece + text, all, rest);
  }

  lemma AtUncons(it: Item, its: seq<Item>, text: string) returns (k: nat)
    requires At([it] + its, text)
    ensures k <= |text| && Stands(it, text[..k]) && At(its, text[k..])
  {
    var pieces, rest :| Splits([it] + its, text, pieces, rest);
    k := |pieces[0]|;
    var tail := pieces[1..];
    assert text == pieces[0] + (Cat(tail) + rest);
    assert text[..k] == pieces[0] && text[k..] == Cat(tail) + rest;
    assert forall i :: 0 <= i < |its| ==> ([it] + its)[i + 1] == its[i] && pieces[i + 1] == tail[i];
    assert ([it] + its)[0] == it;
    assert End in its ==> End in [it] + its;
    assert Splits(its, text[k..], tail, rest);
  }

  lemma AtOne(c: char, its: seq<Item>, text: string)
    ensures At([One(c)] + its, text) <==> text != "" && Fits(c, text[0]) && At(its, text[1..])
  {
    if text != "" && Fits(c, text[0]) && At(its, text[1..]) {
      AtCons(One(c), its, text[..1], text[1..]);
      assert text[..1] + text[1..] == text;
    }
    if At([One(c)] + its, text) {
      var k := AtUncons(One(c), its, text);
    }
  }

  lemma AtStar(c: char, its: seq<Item>, text: string)
    ensures At([Star(c)] + its, text) <==>
      exists k :: 0 <= k <= |text| && Stands(Star(c), text[..k]) && At(its, text[k..])
  {
    if At([Star(c)] + its, text) {
      var k := AtUncons(Star(c), its, text);
    }
    if k :| 0 <= k <= |text| && Stands(Star(c), text[..k]) && At(its, text[k..]) {
      AtCons(Star(c), its, text[..k], text[k..]);
      assert text[..k] + text[k..] == text;
    }
  }

  // ---- The matcher ----

  /** match: search for re anywhere in text. */
  method Match(re: string, text: string) returns (r: bool)
    ensures r <==> Matches(re, text)
  {
    if re != "" && re[0] == '^' {
      r := MatchHere(re[1..], text);
      return;
    }
    var i := 0;
    while true
      invariant 0 <= i <= |text|
      invariant forall k :: 0 <= k < i ==> !At(Items(re), text[k..])
      decreases |text| - i
    {
      r := MatchHere(re, text[i..]);
      if r {
        return;
      }
      if i == |text| {
        return false;
      }
      i := i + 1;
    }
  }

  /** matchhere: re at the beginning of text. */
  method MatchHere(re: string, text: string) returns (r: bool)
    ensures r <==> At(Items(re), text)
    decreases |re|, |text|, 0
  {
    if re == "" {
      AtNil(text);
      return true;
    }
    if |re| >= 2 && re[1] == '*' {
      r := MatchStar(re[0], re[2..], text);
      return;
    }
    if re == "$" {
      AtEnd(text);
      return text == "";
    }
    AtOne(re[0], Items(re[1..]), text);
    if text != "" && (re[0] == '.' || re[0] == text[0]) {
      r := MatchHere(re[1..], text[1..]);
      return;
    }
    return false;
  }

  /** matchstar: c*re at the beginning of text. */
  method MatchStar(c: char, re: string, text: string) returns (r: bool)
    ensures r <==> At([Star(c)] + Items(re), text)
    decreases |re| + 1, |text|, 1
  {
    AtStar(c, Items(re), text);
    var i := 0;
    while true
      invariant 0 <= i <= |text| && Stands(Star(c), text[..i])
      invariant forall k :: 0 <= k < i ==> !At(Items(re), text[k..])
      decreases |text| - i
    {
      r := MatchHere(re, text[i..]);
      if r {
        return;
      }
      if i == |text| || !(text[i] == c || c == '.') {
        assert forall k :: i < k <= |text| ==> text[..k][i] == text[i];
        return false;
      }
      assert forall j :: 0 <= j <= i ==> text[..i + 1][j] == if j < i then text[..i][j] else text[i];
      i := i + 1;
    }
  }

  // ---- Lines ----

  // Index of the first c in s, or |s|.
  function First(c: char, s: string): (n: nat)
    ensures n <= |s| && (n < |s| ==> s[n] == c) && forall i :: 0 <= i < n ==> s[i] != c
  {
    if s == "" || s[0] == c then 0 else 1 + First(c, s[1..])
  }

  lemma FirstIs(c: char, s: string, n: nat)
    requires n <= |s| && (n < |s| ==> s[n] == c) && forall i :: 0 <= i < n ==> s[i] != c
    ensures First(c, s) == n
  {
  }

  // The complete lines of s, without their newlines.
  function Lines(s: string): seq<string>
    decreases |s|
  {
    var n := First('\n', s);
    if n == |s| then [] else [s[..n]] + Lines(s[n + 1..])
  }

  // The matching ones among ls, with their newlines, in order.
  ghost function Matching(re: string, ls: seq<string>): string {
    if ls == [] then ""
    else (if Matches(re, ls[0]) then ls[0] + "\n" else "") + Matching(re, ls[1..])
  }

  // The lines before the first one too long for the buffer.
  function Short(ls: seq<string>): seq<string> {
    if ls == [] || |ls[0]| + 1 > 1023 then [] else [ls[0]] + Short(ls[1..])
  }

  lemma {:induction false} AllShort(ls: seq<string>)
    requires forall i :: 0 <= i < |ls| ==> |ls[i]| + 1 <= 1023
    ensures Short(ls) == ls
  {
    if ls != [] { AllShort(ls[1..]); }
  }

  // What grep writes for input s.
  ghost function Output(re: string, s: string): string {
    Matching(re, Short(Lines(s)))
  }

  lemma OutputLine(re: string, s: string, n: nat)
    requires n < |s| && s[n] == '\n' && (forall i :: 0 <= i < n ==> s[i] != '\n') && n + 1 <= 1023
    ensures Output(re, s) == (if Matches(re, s[..n]) then s[..n + 1] else "") + Output(re, s[n + 1..])
  {
    FirstIs('\n', s, n);
    assert s[..n] + "\n" == s[..n + 1];
    assert Lines(s)[1..] == Lines(s[n + 1..]) && Lines(s)[0] == s[..n];
    assert Short(Lines(s))[1..] == Short(Lines(s[n + 1..]));
  }

  // What C's string functions see of s.
  function Text(s: string): string { s[..First('\0', s)] }

  // The text goes on past bytes that are no NUL.
  lemma TextPast(a: string, b: string)
    requires '\0' !in a
    ensures Text(a + b) == a + Text(b)
  {
    assert forall i :: 0 <= i < |a| + First('\0', b) ==> (a + b)[i] == if i < |a| then a[i] else b[i - |a|];
    FirstIs('\0', a + b, |a| + First('\0', b));
  }

  // And ends at the first NUL.
  lemma TextWithin(a: string, b: string)
    requires First('\0', a) < |a|
    ensures Text(a + b) == Text(a)
  {
    FirstIs('\0', a + b, First('\0', a));
  }

  // Nothing is written for a line that is not complete within the buffer.
  lemma OutputNone(re: string, s: string, m: nat)
    requires m <= |s| && (forall i :: 0 <= i < m ==> s[i] != '\n') && (m == 1023 || m == |s|)
    ensures Output(re, s) == ""
  {
    assert First('\n', s) >= m;
  }

  // Nor for one that a NUL hides.
  lemma TextNone(re: string, b: string, rest: string)
    requires '\n' !in Text(b) && (|b| == 1023 || rest == "")
    ensures Output(re, Text(b + rest)) == ""
  {
    if First('\0', b) < |b| {
      TextWithin(b, rest);
      OutputNone(re, Text(b), |Text(b)|);
    } else {
      assert Text(b) == b;
      TextPast(b, rest);
      assert forall i :: 0 <= i < |b| ==> (b + Text(rest))[i] == b[i];
      OutputNone(re, b + Text(rest), |b|);
    }
  }

  // The search for a newline, which ends at z: there, or at a NUL with -1 for the null pointer.
  method FindNewline(buf: array<char>, p: nat, m: nat) returns (q: int, ghost z: nat)
    requires p <= m < buf.Length && buf[m] == '\0'
    ensures p <= z <= m && forall i :: p <= i < z ==> buf[i] != '\n' && buf[i] != '\0'
    ensures if q == -1 then buf[z] == '\0' else q == z < m && buf[z] == '\n'
  {
    q := p;
    while buf[q] != '\0'
      invariant p <= q <= m && forall i :: p <= i < q ==> buf[i] != '\n' && buf[i] != '\0'
      decreases m - q
    {
      if buf[q] == '\n' {
        z := q;
        return;
      }
      q := q + 1;
    }
    z := q;
    q := -1;
  }

  // The output for the buffer from p on, in terms of the line that ends at q.
  lemma LineAt(re: string, b: seq<char>, p: nat, q: nat, m: nat, tail: string)
    requires p <= q < m <= 1023 < |b| && b[q] == '\n' && forall i :: p <= i < q ==> b[i] != '\n' && b[i] != '\0'
    ensures Output(re, Text(b[p..m] + tail)) ==
      (if Matches(re, b[p..q]) then b[p..q + 1] else "") + Output(re, Text(b[q + 1..m] + tail))
  {
    var line, rest := b[p..q + 1], b[q + 1..m] + tail;
    assert b[p..m] + tail == line + rest;
    TextPast(line, rest);
    var s, n := line + Text(rest), q - p;
    assert s[n] == b[q] && forall i :: 0 <= i < n ==> s[i] == b[p + i];
    assert s[..n] == b[p..q];
    assert s[..n + 1] == b[p..q + 1];
    assert s[n + 1..] == Text(rest);
    OutputLine(re, s, n);
  }

  // One complete line, from p to the newline at q: write it if it matches.
  method OneLine(re: string, buf: array<char>, p: nat, q: nat, m: nat, ghost tail: string) returns (out: string)
    requires p <= q < m <= 1023 < buf.Length && buf[q] == '\n'
    requires forall i :: p <= i < q ==> buf[i] != '\n' && buf[i] != '\0'
    modifies buf
    ensures forall i :: q < i < buf.Length ==> buf[i] == old(buf[i])
    ensures Output(re, Text(old(buf[p..m]) + tail)) == out + Output(re, Text(old(buf[q + 1..m]) + tail))
  {
    LineAt(re, buf[..], p, q, m, tail);
    assert buf[..][p..m] == buf[p..m] && buf[..][p..q] == buf[p..q] && buf[..][q + 1..m] == buf[q + 1..m];
    var line := buf[p..q];
    buf[q] := '\0';
    var hit := Match(re, line);
    if hit {
      buf[q] := '\n';
      out := buf[p..q + 1];
      assert out == old(buf[..][p..q + 1]);
    } else {
      out := "";
    }
  }

  /** grep's inner loop: all complete lines of the buffer, up to a NUL; the rest starts at
      p. */
  method EachLine(re: string, buf: array<char>, m: nat, ghost tail: string) returns (p: nat, out: string)
    requires m <= 1023 < buf.Length && buf[m] == '\0'
    modifies buf
    ensures p <= m && buf[p..m] == old(buf[p..m]) && '\n' !in Text(buf[p..m])
    ensures Output(re, Text(old(buf[..m]) + tail)) == out + Output(re, Text(buf[p..m] + tail))
  {
    hide Output, Text, First;
    ghost var o := buf[..];
    p, out := 0, "";
    assert o[0..m] == buf[..m];
    var q;
    ghost var z;
    q, z := FindNewline(buf, p, m);
    while q != -1
      invariant p <= z <= m && forall i :: p <= i < buf.Length ==> buf[i] == o[i]
      invariant forall i :: p <= i < z ==> buf[i] != '\n' && buf[i] != '\0'
      invariant if q == -1 then buf[z] == '\0' else q == z < m && buf[z] == '\n'
      invariant Output(re, Text(o[..m] + tail)) == out + Output(re, Text(o[p..m] + tail))
      decreases m - p + (if q == -1 then 0 else 1)
    {
      assert buf[p..m] == o[p..m] && buf[q + 1..m] == o[q + 1..m];
      var more := OneLine(re, buf, p, q, m, tail);
      Join(out, more, Output(re, Text(o[q + 1..m] + tail)));
      out := out + more;
      p := q + 1;
      q, z := FindNewline(buf, p, m);
    }
    assert buf[p..m] == o[p..m];
    NoLine(o, p, z, m);
  }

  lemma NoLine(b: seq<char>, p: nat, z: nat, m: nat)
    requires p <= z <= m < |b| && b[z] == '\0' && forall i :: p <= i < z ==> b[i] != '\n' && b[i] != '\0'
    ensures '\n' !in Text(b[p..m])
  {
    FirstIs('\0', b[p..m], z - p);
  }

  lemma Join(a: string, b: string, c: string)
    ensures a + (b + c) == a + b + c
  {
  }

  // memmove(buf, p, m)
  method MoveDown(buf: array<char>, p: nat, m: nat)
    requires p + m <= buf.Length
    modifies buf
    ensures buf[..m] == old(buf[p..p + m])
  {
    for i := 0 to m
      invariant buf[..i] == old(buf[p..p + i])
      invariant buf[i + p..] == old(buf[i + p..])
    {
      assert buf[i + p] == buf[i + p..][0] == old(buf[i + p..])[0];
      buf[i] := buf[p + i];
      assert buf[i + 1 + p..] == buf[i + p..][1..];
    }
  }

  /** grep's loop over a buffer of 1024 bytes. The k-th read returns split(k) bytes, cut to
      what was asked for and what is left, but at least one byte before the end. Nothing
      after a NUL is seen. */
  method Grep(re: string, input: string, split: nat -> nat) returns (out: string)
    ensures out == Output(re, Text(input))
  {
    var buf := new char[1024](_ => '\0');
    var pos: nat, m: nat, k: nat := 0, 0, 0;
    out := "";
    assert buf[..0] + input[0..] == input;
    while true
      invariant pos <= |input| && m <= 1023 && buf.Length == 1024
      invariant '\n' !in Text(buf[..m])
      invariant Output(re, Text(input)) == out + Output(re, Text(buf[..m] + input[pos..]))
      decreases |input| - pos
    {
      var n := Min(Max(1, split(k)), Min(1023 - m, |input| - pos));
      if n == 0 {
        TextNone(re, buf[..m], input[pos..]);
        return;
      }
      k := k + 1;
      var more;
      m, more := Refill(re, buf, m, input, pos, n);
      pos := pos + n;
      Join(out, more, Output(re, Text(buf[..m] + input[pos..])));
      out := out + more;
    }
  }

  // One turn of the loop: n bytes are read, complete lines dealt with, the rest moved down.
  method Refill(re: string, buf: array<char>, m: nat, input: string, pos: nat, n: nat)
    returns (m': nat, out: string)
    requires m + n <= 1023 && buf.Length == 1024 && pos + n <= |input|
    modifies buf
    ensures m' <= 1023 && '\n' !in Text(buf[..m'])
    ensures Output(re, Text(old(buf[..m]) + input[pos..])) == out + Output(re, Text(buf[..m'] + input[pos + n..]))
  {
    Receive(buf, m, input, pos, n);
    var p;
    p, out := EachLine(re, buf, m + n, input[pos + n..]);
    m' := m + n - p;
    MoveDown(buf, p, m');
  }

  // A read of n bytes at buf + m, and the NUL after them.
  method Receive(buf: array<char>, m: nat, input: string, pos: nat, n: nat)
    requires m + n <= 1023 < buf.Length && pos + n <= |input|
    modifies buf
    ensures buf[m + n] == '\0'
    ensures buf[..m + n] + input[pos + n..] == old(buf[..m]) + input[pos..]
  {
    forall i | 0 <= i < n { buf[m + i] := input[pos + i]; }
    buf[m + n] := '\0';
    assert buf[..m + n] == old(buf[..m]) + input[pos..pos + n];
    assert input[pos..] == input[pos..pos + n] + input[pos + n..];
  }

  // ---- When the output is complete ----

  predicate AllFit(ls: seq<string>) {
    forall i :: 0 <= i < |ls| ==> |ls[i]| + 1 <= 1023
  }

  // The empty pattern matches every line.
  lemma EmptyMatches(text: string)
    ensures Matches("", text)
  {
    AtNil(text[0..]);
  }

  lemma {:induction false} EmptyAll(ls: seq<string>)
    ensures |Matching("", Short(ls))| <= |Matching("", ls)|
    ensures !AllFit(ls) ==> |Matching("", Short(ls))| < |Matching("", ls)|
  {
    if ls != [] {
      EmptyMatches(ls[0]);
      EmptyAll(ls[1..]);
      if |ls[0]| + 1 <= 1023 {
        assert Short(ls)[1..] == Short(ls[1..]);
        assert !AllFit(ls) ==> !AllFit(ls[1..]);
      }
    }
  }

  /** The exact condition for grep to miss no matching line, whatever the pattern: every
      complete line is at most 1023 bytes with its newline. */
  lemma OutputComplete(s: string)
    ensures (forall re :: Output(re, s) == Matching(re, Lines(s))) <==> AllFit(Lines(s))
  {
    if AllFit(Lines(s)) {
      AllShort(Lines(s));
    } else {
      EmptyAll(Lines(s));
      assert Output("", s) != Matching("", Lines(s));
    }
  }

  /** One line of 1023 bytes before its newline is enough: a pattern that matches it finds
      nothing. */
  lemma OverlongLost(s: string)
    requires |s| == 1024 && s[1023] == '\n' && forall i :: 0 <= i < 1023 ==> s[i] != '\n'
    requires '\0' !in s
    ensures Output("", Text(s)) == "" && Matching("", Lines(Text(s))) == s
  {
    FirstIs('\0', s, |s|);
    assert Text(s) == s;
    FirstIs('\n', s, 1023);
    assert Lines(s[1024..]) == [];
    assert Lines(s) == [s[..1023]];
    EmptyMatches(s[..1023]);
    assert s[..1023] + "\n" == s;
  }
}
