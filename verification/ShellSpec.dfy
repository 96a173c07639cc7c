/**
 The command parser of user/sh.c on values: a line is a string without its NUL, a parse
 position is an index into it, and the parsers' calls to `panic` are errors.
 */
module ShellSpec {

  const MAXARGS := 10

  predicate IsSpace(c: char) {
    c == ' ' || c == '\t' || c == '\r' || c == '\n' || c == '\U{000B}'
  }

  predicate IsSymbol(c: char) {
    c == '<' || c == '|' || c == '>' || c == '&' || c == ';' || c == '(' || c == ')'
  }

  predicate IsWordChar(c: char) {
    !IsSpace(c) && !IsSymbol(c)
  }

  // -------------------------------------------------------------------- tokens

  function Skip(s: string, i: nat): (j: nat)
    requires i <= |s|
    ensures i <= j <= |s| && (j < |s| ==> !IsSpace(s[j])) && forall k :: i <= k < j ==> IsSpace(s[k])
    decreases |s| - i
  {
    if i < |s| && IsSpace(s[i]) then Skip(s, i + 1) else i
  }

  function WordEnd(s: string, i: nat): (j: nat)
    requires i <= |s|
    ensures i <= j <= |s| && (j < |s| ==> !IsWordChar(s[j])) && forall k :: i <= k < j ==> IsWordChar(s[k])
    decreases |s| - i
  {
    if i < |s| && IsWordChar(s[i]) then WordEnd(s, i + 1) else i
  }

  /** A stretch of the line. */
  datatype Span = Span(q: nat, e: nat)

  /** `gettoken`: what kind of token, where it is, and where the next one starts. */
  datatype Token = Token(kind: char, span: Span, next: nat)

  function TokenEnd(s: string, j: nat): (e: nat)
    requires j < |s| && !IsSpace(s[j])
    ensures j < e <= |s|
  {
    if s[j] == '>' then (if j + 1 < |s| && s[j + 1] == '>' then j + 2 else j + 1)
    else if IsSymbol(s[j]) then j + 1 else WordEnd(s, j)
  }

  function GetToken(s: string, i: nat): (t: Token)
    requires i <= |s|
    ensures i <= t.span.q <= t.span.e <= t.next <= |s| && (t.kind != '\0' ==> i < t.next) && t.next == Skip(s, t.next)
    ensures t.kind == 'a' ==> IsWord(s, t.span)
  {
    var j := Skip(s, i);
    if j == |s| then Token('\0', Span(j, j), j) else
    var e := TokenEnd(s, j);
    var kind := if s[j] == '>' then (if e == j + 2 then '+' else '>') else if IsSymbol(s[j]) then s[j] else 'a';
    SkipSkip(s, e);
    Token(kind, Span(j, e), Skip(s, e))
  }

  /** A longest stretch of characters that are neither space nor symbol. */
  predicate IsWord(s: string, w: Span) {
    && w.q < w.e <= |s| && (w.e < |s| ==> !IsWordChar(s[w.e])) && forall k :: w.q <= k < w.e ==> IsWordChar(s[k])
  }

  lemma SkipSkip(s: string, i: nat)
    requires i <= |s|
    ensures Skip(s, Skip(s, i)) == Skip(s, i)
    decreases |s| - i
  {
  }

  /** `peek`. */
  predicate Peek(s: string, i: nat, toks: string)
    requires i <= |s|
  {
    var j := Skip(s, i); j < |s| && s[j] in toks
  }

  lemma PeekToken(s: string, i: nat, toks: string)
    requires i <= |s| && Peek(s, i, toks)
    ensures i < GetToken(s, i).next
  {
  }

  // ------------------------------------------------------------------- parsers

  datatype Mode = Read | Write | Append

  datatype Cmd =
    | Exec(args: seq<Span>)
    | Redir(cmd: Cmd, file: Span, mode: Mode)
    | Pipe(left: Cmd, right: Cmd)
    | List(left: Cmd, right: Cmd)
    | Back(cmd: Cmd)

  datatype Parsed = Ok(cmd: Cmd, pos: nat) | Error

  function ModeOf(kind: char): Mode {
    if kind == '<' then Read else if kind == '>' then Write else Append
  }

  /** `parseredirs`. */
  function Redirs(s: string, i: nat, c: Cmd): (r: Parsed)
    requires i <= |s|
    ensures r.Ok? ==> i <= r.pos <= |s|
    decreases |s| - i
  {
    if !Peek(s, i, "<>") then Ok(c, Skip(s, i)) else
    var op := GetToken(s, i);
    PeekToken(s, i, "<>");
    var file := GetToken(s, op.next);
    if file.kind != 'a' then Error else Redirs(s, file.next, Redir(c, file.span, ModeOf(op.kind)))
  }

  /** The arguments of a command grow while redirections are already wrapped around it. */
  function AddArg(c: Cmd, w: Span): Cmd {
    match c
    case Exec(args) => Exec(args + [w])
    case Redir(d, f, m) => Redir(AddArg(d, w), f, m)
    case _ => c
  }

  /** The argument loop of `parseexec`. */
  function Args(s: string, i: nat, argc: nat, c: Cmd): (r: Parsed)
    requires i <= |s|
    ensures r.Ok? ==> i <= r.pos <= |s|
    decreases |s| - i
  {
    if Peek(s, i, "|)&;") then Ok(c, Skip(s, i)) else
    var t := GetToken(s, i);
    if t.kind == '\0' then Ok(c, t.next) else
    if t.kind != 'a' || argc + 1 >= MAXARGS then Error else
    match Redirs(s, t.next, AddArg(c, t.span))
    case Error => Error
    case Ok(d, j) => Args(s, j, argc + 1, d)
  }

  /** `parseexec`, with `parseblock`. */
  function ParseExec(s: string, i: nat): (r: Parsed)
    requires i <= |s|
    ensures r.Ok? ==> i <= r.pos <= |s|
    decreases |s| - i, 0
  {
    if Peek(s, i, "(") then
      PeekToken(s, i, "(");
      match ParseLine(s, GetToken(s, i).next)
      case Error => Error
      case Ok(c, j) => if !Peek(s, j, ")") then Error else Redirs(s, GetToken(s, j).next, c)
    else
      match Redirs(s, i, Exec([]))
      case Error => Error
      case Ok(c, j) => Args(s, j, 0, c)
  }

  /** `parsepipe`. */
  function ParsePipe(s: string, i: nat): (r: Parsed)
    requires i <= |s|
    ensures r.Ok? ==> i <= r.pos <= |s|
    decreases |s| - i, 1
  {
    match ParseExec(s, i)
    case Error => Error
    case Ok(c, j) =>
      if !Peek(s, j, "|") then Ok(c, Skip(s, j)) else
      PeekToken(s, j, "|");
      match ParsePipe(s, GetToken(s, j).next)
      case Error => Error
      case Ok(d, k) => Ok(Pipe(c, d), k)
  }

  /** The loop of `parseline` over `&`. */
  function Backs(s: string, i: nat, c: Cmd): (r: (Cmd, nat))
    requires i <= |s|
    ensures i <= r.1 <= |s|
    decreases |s| - i
  {
    if !Peek(s, i, "&") then (c, Skip(s, i)) else
    PeekToken(s, i, "&");
    Backs(s, GetToken(s, i).next, Back(c))
  }

  /** `parseline`. */
  function ParseLine(s: string, i: nat): (r: Parsed)
    requires i <= |s|
    ensures r.Ok? ==> i <= r.pos <= |s|
    decreases |s| - i, 2
  {
    match ParsePipe(s, i)
    case Error => Error
    case Ok(c, j) =>
      var (d, k) := Backs(s, j, c);
      if !Peek(s, k, ";") then Ok(d, Skip(s, k)) else
      PeekToken(s, k, ";");
      match ParseLine(s, GetToken(s, k).next)
      case Error => Error
      case Ok(e, n) => Ok(List(d, e), n)
  }

  /** `parsecmd` before `nulterminate`. */
  function ParseCmd(s: string): Parsed {
    match ParseLine(s, 0)
    case Error => Error
    case Ok(c, j) => if Skip(s, j) != |s| then Error else Ok(c, |s|)
  }
}
