/** user/sh.c: the recursive-descent parser, its loops and its writes into the line. */
module Shell {
  import opened ShellSpec

  /** `gettoken`. */
  method NextToken(s: string, i: nat) returns (kind: char, w: Span, pos: nat)
    requires i <= |s|
    ensures Token(kind, w, pos) == GetToken(s, i)
  {
    var q := SkipSpace(s, i);
    var e := q;
    if q == |s| {
      kind := '\0';
    } else if s[q] in "|();&<" {
      kind, e := s[q], q + 1;
    } else if s[q] == '>' {
      kind, e := '>', q + 1;
      if e < |s| && s[e] == '>' {
        kind, e := '+', e + 1;
      }
    } else {
      kind := 'a';
      WordEndFrom(s, q, q);
      while e < |s| && !IsSpace(s[e]) && !IsSymbol(s[e])
        invariant q <= e <= |s| && WordEnd(s, e) == WordEnd(s, q)
      {
        e := e + 1;
      }
    }
    w := Span(q, e);
    pos := SkipSpace(s, e);
  }

  lemma WordEndFrom(s: string, i: nat, j: nat)
    requires i <= j <= |s| && forall k :: i <= k < j ==> IsWordChar(s[k])
    ensures WordEnd(s, i) == WordEnd(s, j)
    decreases |s| - i
  {
  }

  method SkipSpace(s: string, i: nat) returns (j: nat)
    requires i <= |s|
    ensures j == Skip(s, i)
  {
    j := i;
    while j < |s| && IsSpace(s[j])
      invariant i <= j <= |s| && Skip(s, j) == Skip(s, i)
    {
      j := j + 1;
    }
  }

  /** `peek`. */
  method PeekAt(s: string, i: nat, toks: string) returns (r: bool, pos: nat)
    requires i <= |s|
    ensures r == Peek(s, i, toks) && pos == Skip(s, i)
  {
    pos := SkipSpace(s, i);
    r := pos < |s| && s[pos] in toks;
  }

  /** Looking from the skipped position is the same. */
  lemma AfterSkip(s: string, i: nat, toks: string)
    requires i <= |s|
    ensures var j := Skip(s, i); Skip(s, j) == j && GetToken(s, j) == GetToken(s, i) && Peek(s, j, toks) == Peek(s, i, toks)
  {
    SkipSkip(s, i);
  }

  /** `parsecmd` before `nulterminate`. */
  method Parse(s: string) returns (r: Parsed)
    ensures r == ParseCmd(s)
  {
    r := Line(s, 0);
    if r.Ok? {
      var _, pos := PeekAt(s, r.pos, "");
      if pos != |s| {
        return Error;
      }
      r := Ok(r.cmd, pos);
    }
  }

  /** `parseline`. */
  method Line(s: string, i: nat) returns (r: Parsed)
    requires i <= |s|
    ensures r == ParseLine(s, i)
    decreases |s| - i, 3
  {
    r := PipeLine(s, i);
    if r.Error? {
      return;
    }
    var c, j := r.cmd, r.pos;
    var more, p := PeekAt(s, j, "&");
    while more
      invariant j <= |s| && more == Peek(s, j, "&") && p == Skip(s, j)
      invariant Backs(s, j, c) == Backs(s, r.pos, r.cmd) && i <= j
      decreases |s| - j
    {
      PeekToken(s, j, "&");
      AfterSkip(s, j, "&");
      var _, _, k := NextToken(s, p);
      c, j := Back(c), k;
      more, p := PeekAt(s, j, "&");
    }
    AfterSkip(s, j, ";");
    more, p := PeekAt(s, p, ";");
    if more {
      PeekToken(s, j, ";");
      var _, _, k := NextToken(s, p);
      AfterSkip(s, p, ";");
      var rest := Line(s, k);
      if rest.Error? {
        return Error;
      }
      return Ok(List(c, rest.cmd), rest.pos);
    }
    return Ok(c, p);
  }

  /** `parsepipe`. */
  method PipeLine(s: string, i: nat) returns (r: Parsed)
    requires i <= |s|
    ensures r == ParsePipe(s, i)
    decreases |s| - i, 2
  {
    r := ExecOrBlock(s, i);
    if r.Error? {
      return;
    }
    var more, p := PeekAt(s, r.pos, "|");
    if more {
      PeekToken(s, r.pos, "|");
      AfterSkip(s, r.pos, "|");
      var _, _, k := NextToken(s, p);
      var rest := PipeLine(s, k);
      if rest.Error? {
        return Error;
      }
      return Ok(Pipe(r.cmd, rest.cmd), rest.pos);
    }
    return Ok(r.cmd, p);
  }

  /** `parseredirs`. */
  method RedirList(s: string, i: nat, c: Cmd) returns (r: Parsed)
    requires i <= |s|
    ensures r == Redirs(s, i, c)
  {
    var d, j := c, i;
    var more, p := PeekAt(s, j, "<>");
    while more
      invariant j <= |s| && more == Peek(s, j, "<>") && p == Skip(s, j) && Redirs(s, j, d) == Redirs(s, i, c)
      decreases |s| - j
    {
      PeekToken(s, j, "<>");
      AfterSkip(s, j, "<>");
      var tok, _, k := NextToken(s, p);
      var kind, w, n := NextToken(s, k);
      if kind != 'a' {
        return Error;
      }
      d, j := Redir(d, w, if tok == '<' then Read else if tok == '>' then Write else Append), n;
      more, p := PeekAt(s, j, "<>");
    }
    return Ok(d, p);
  }

  /** `parseblock`. */
  method BlockOf(s: string, i: nat) returns (r: Parsed)
    requires i <= |s|
    ensures r == if Peek(s, i, "(") then ParseExec(s, i) else Error
    decreases |s| - i, 0
  {
    var open, p := PeekAt(s, i, "(");
    if !open {
      return Error;
    }
    PeekToken(s, i, "(");
    AfterSkip(s, i, "(");
    var _, _, k := NextToken(s, p);
    r := Line(s, k);
    if r.Error? {
      return;
    }
    var close, p2 := PeekAt(s, r.pos, ")");
    if !close {
      return Error;
    }
    AfterSkip(s, r.pos, ")");
    var _, _, n := NextToken(s, p2);
    r := RedirList(s, n, r.cmd);
  }

  /** `parseexec`. */
  method ExecOrBlock(s: string, i: nat) returns (r: Parsed)
    requires i <= |s|
    ensures r == ParseExec(s, i)
    decreases |s| - i, 1
  {
    var open, p := PeekAt(s, i, "(");
    if open {
      r := BlockOf(s, i);
      return;
    }
    r := RedirList(s, i, Exec([]));
    if r.Error? {
      return;
    }
    var c, j, argc := r.cmd, r.pos, 0;
    var stop;
    stop, p := PeekAt(s, j, "|)&;");
    while !stop
      invariant j <= |s|
      invariant stop == Peek(s, j, "|)&;") && p == Skip(s, j) && Args(s, j, argc, c) == Args(s, r.pos, 0, r.cmd)
      decreases |s| - j
    {
      AfterSkip(s, j, "");
      var tok, w, k := NextToken(s, p);
      if tok == '\0' {
        return Ok(c, k);
      }
      if tok != 'a' {
        return Error;
      }
      c, argc := AddArg(c, w), argc + 1;
      if argc >= MAXARGS {
        return Error;
      }
      var d := RedirList(s, k, c);
      if d.Error? {
        return Error;
      }
      c, j := d.cmd, d.pos;
      stop, p := PeekAt(s, j, "|)&;");
    }
    return Ok(c, p);
  }

  // -------------------------------------------------------------- nulterminate

  /** Does some word of the command end at `k`? */
  predicate EndsAt(c: Cmd, k: nat) {
    match c
    case Exec(args) => exists i :: 0 <= i < |args| && args[i].e == k
    case Redir(d, f, _) => f.e == k || EndsAt(d, k)
    case Pipe(l, r) => EndsAt(l, k) || EndsAt(r, k)
    case List(l, r) => EndsAt(l, k) || EndsAt(r, k)
    case Back(d) => EndsAt(d, k)
  }

  /** Is `w` a word of the command? */
  ghost predicate HasWord(c: Cmd, w: Span) {
    match c
    case Exec(args) => w in args
    case Redir(d, f, _) => f == w || HasWord(d, w)
    case Pipe(l, r) => HasWord(l, w) || HasWord(r, w)
    case List(l, r) => HasWord(l, w) || HasWord(r, w)
    case Back(d) => HasWord(d, w)
  }

  ghost predicate AllWords(s: string, c: Cmd) {
    match c
    case Exec(args) => forall i :: 0 <= i < |args| ==> IsWord(s, args[i])
    case Redir(d, f, _) => IsWord(s, f) && AllWords(s, d)
    case Pipe(l, r) => AllWords(s, l) && AllWords(s, r)
    case List(l, r) => AllWords(s, l) && AllWords(s, r)
    case Back(d) => AllWords(s, d)
  }

  /** `nulterminate`: a NUL after every word, and nothing else. */
  method NulTerminate(buf: array<char>, c: Cmd, ghost s: string)
    requires AllWords(s, c) && buf.Length == |s| + 1
    modifies buf
    ensures forall k :: 0 <= k < buf.Length ==> buf[k] == if EndsAt(c, k) then '\0' else old(buf[k])
    decreases c
  {
    match c {
      case Exec(args) =>
        for n := 0 to |args|
          invariant forall k :: 0 <= k < buf.Length ==>
            buf[k] == if exists i :: 0 <= i < n && args[i].e == k then '\0' else old(buf[k])
        {
          assert IsWord(s, args[n]);
          buf[args[n].e] := '\0';
        }
      case Redir(d, f, _) =>
        NulTerminate(buf, d, s);
        buf[f.e] := '\0';
      case Pipe(l, r) =>
        NulTerminate(buf, l, s);
        NulTerminate(buf, r, s);
      case List(l, r) =>
        NulTerminate(buf, l, s);
        NulTerminate(buf, r, s);
      case Back(d) =>
        NulTerminate(buf, d, s);
    }
  }

  lemma {:induction false} RedirsWords(s: string, i: nat, c: Cmd)
    requires i <= |s| && AllWords(s, c)
    ensures Redirs(s, i, c).Ok? ==> AllWords(s, Redirs(s, i, c).cmd)
    decreases |s| - i
  {
    if Peek(s, i, "<>") {
      PeekToken(s, i, "<>");
      var op := GetToken(s, i);
      var file := GetToken(s, op.next);
      if file.kind == 'a' {
        RedirsWords(s, file.next, Redir(c, file.span, ModeOf(op.kind)));
      }
    }
  }

  lemma {:induction false} AddArgWords(s: string, c: Cmd, w: Span)
    requires AllWords(s, c) && IsWord(s, w)
    ensures AllWords(s, AddArg(c, w))
  {
    if c.Redir? { AddArgWords(s, c.cmd, w); }
  }

  lemma {:induction false} ArgsWords(s: string, i: nat, argc: nat, c: Cmd)
    requires i <= |s| && AllWords(s, c)
    ensures Args(s, i, argc, c).Ok? ==> AllWords(s, Args(s, i, argc, c).cmd)
    decreases |s| - i
  {
    hide GetToken, Peek, Redirs, AddArg, AllWords, IsWord;
    var t := GetToken(s, i);
    if !Peek(s, i, "|)&;") && t.kind == 'a' && argc + 1 < MAXARGS {
      AddArgWords(s, c, t.span);
      RedirsWords(s, t.next, AddArg(c, t.span));
      var r := Redirs(s, t.next, AddArg(c, t.span));
      if r.Ok? { ArgsWords(s, r.pos, argc + 1, r.cmd); }
    }
  }

  lemma {:induction false} BacksWords(s: string, i: nat, c: Cmd)
    requires i <= |s| && AllWords(s, c)
    ensures AllWords(s, Backs(s, i, c).0)
    decreases |s| - i
  {
    if Peek(s, i, "&") {
      PeekToken(s, i, "&");
      BacksWords(s, GetToken(s, i).next, Back(c));
    }
  }

  lemma {:induction false} ExecWords(s: string, i: nat)
    requires i <= |s|
    ensures ParseExec(s, i).Ok? ==> AllWords(s, ParseExec(s, i).cmd)
    decreases |s| - i, 0
  {
    if Peek(s, i, "(") {
      PeekToken(s, i, "(");
      var k := GetToken(s, i).next;
      LineWords(s, k);
      var r := ParseLine(s, k);
      if r.Ok? && Peek(s, r.pos, ")") { RedirsWords(s, GetToken(s, r.pos).next, r.cmd); }
    } else {
      RedirsWords(s, i, Exec([]));
      var r := Redirs(s, i, Exec([]));
      if r.Ok? { ArgsWords(s, r.pos, 0, r.cmd); }
    }
  }

  lemma {:induction false} PipeWords(s: string, i: nat)
    requires i <= |s|
    ensures ParsePipe(s, i).Ok? ==> AllWords(s, ParsePipe(s, i).cmd)
    decreases |s| - i, 1
  {
    ExecWords(s, i);
    var r := ParseExec(s, i);
    if r.Ok? && Peek(s, r.pos, "|") {
      PeekToken(s, r.pos, "|");
      PipeWords(s, GetToken(s, r.pos).next);
    }
  }

  /** Every argument and file of a parsed line is one of its words. */
  lemma {:induction false} LineWords(s: string, i: nat)
    requires i <= |s|
    ensures ParseLine(s, i).Ok? ==> AllWords(s, ParseLine(s, i).cmd)
    decreases |s| - i, 2
  {
    PipeWords(s, i);
    var r := ParsePipe(s, i);
    if r.Ok? {
      BacksWords(s, r.pos, r.cmd);
      var (d, k) := Backs(s, r.pos, r.cmd);
      if Peek(s, k, ";") {
        PeekToken(s, k, ";");
        LineWords(s, GetToken(s, k).next);
      }
    }
  }

  lemma {:induction false} WordIsWord(s: string, c: Cmd, w: Span)
    requires AllWords(s, c) && HasWord(c, w)
    ensures IsWord(s, w) && EndsAt(c, w.e)
  {
    match c {
      case Exec(args) =>
      case Redir(d, f, _) => if f != w { WordIsWord(s, d, w); }
      case Pipe(l, r) => if HasWord(l, w) { WordIsWord(s, l, w); } else { WordIsWord(s, r, w); }
      case List(l, r) => if HasWord(l, w) { WordIsWord(s, l, w); } else { WordIsWord(s, r, w); }
      case Back(d) => WordIsWord(s, d, w);
    }
  }

  lemma {:induction false} EndIsNoWordChar(s: string, c: Cmd, k: nat)
    requires AllWords(s, c) && EndsAt(c, k)
    ensures k < |s| ==> !IsWordChar(s[k])
  {
    match c {
      case Exec(args) =>
        var i :| 0 <= i < |args| && args[i].e == k;
        assert IsWord(s, args[i]);
      case Redir(d, f, _) => if f.e != k { EndIsNoWordChar(s, d, k); }
      case Pipe(l, r) => if EndsAt(l, k) { EndIsNoWordChar(s, l, k); } else { EndIsNoWordChar(s, r, k); }
      case List(l, r) => if EndsAt(l, k) { EndIsNoWordChar(s, l, k); } else { EndIsNoWordChar(s, r, k); }
      case Back(d) => EndIsNoWordChar(s, d, k);
    }
  }

  /** The C string at `q` in the buffer is `text`. */
  predicate CString(buf: seq<char>, q: nat, text: string) {
    && q + |text| < |buf| && buf[q + |text|] == '\0' && buf[q..q + |text|] == text
    && forall k :: 0 <= k < |text| ==> text[k] != '\0'
  }

  /** What a C program reads there, up to the first NUL, is this text and no other. */
  lemma OneString(buf: seq<char>, q: nat, text: string, other: string)
    requires CString(buf, q, text) && CString(buf, q, other)
    ensures text == other
  {
    assert forall k :: 0 <= k < |text| ==> text[k] == buf[q + k];
    assert forall k :: 0 <= k < |other| ==> other[k] == buf[q + k];
    assert !(|text| < |other|) && !(|other| < |text|);
  }

  /** `parsecmd`: after `nulterminate`, every argument and file of the command is exactly its token in the line. */
  method ParseInPlace(buf: array<char>) returns (r: Parsed)
    requires buf.Length > 0 && forall k :: 0 <= k < buf.Length ==> (buf[k] == '\0' <==> k == buf.Length - 1)
    modifies buf
    ensures r == ParseCmd(old(buf[..buf.Length - 1]))
    ensures r.Error? ==> buf[..] == old(buf[..])
    ensures r.Ok? ==> forall w :: HasWord(r.cmd, w) ==>
      w.q < w.e < buf.Length && CString(buf[..], w.q, old(buf[..buf.Length - 1])[w.q..w.e])
  {
    var s := buf[..buf.Length - 1];
    r := Parse(s);
    if r.Ok? {
      LineWords(s, 0);
      ghost var c := r.cmd;
      NulTerminate(buf, r.cmd, s);
      forall w | HasWord(c, w) ensures w.q < w.e <= |s| && CString(buf[..], w.q, s[w.q..w.e]) {
        WordIsWord(s, c, w);
        forall k | w.q <= k < w.e ensures buf[k] == s[k] {
          if EndsAt(c, k) { EndIsNoWordChar(s, c, k); }
        }
      }
    }
  }
}
