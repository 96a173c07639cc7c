/** Printing a command tree with all parentheses and parsing it again gives the tree back. */
module ShellRoundTrip {
  import opened ShellSpec

  /** A command with the texts of its words. */
  datatype Tree =
    | TExec(args: seq<string>)
    | TRedir(sub: Tree, file: string, mode: Mode)
    | TPipe(left: Tree, right: Tree)
    | TList(left: Tree, right: Tree)
    | TBack(sub: Tree)

  predicate Word(w: string) {
    |w| > 0 && forall k :: 0 <= k < |w| ==> IsWordChar(w[k])
  }

  /** Proper words, and no more of them in a command than `parseexec` takes. */
  predicate WellFormed(t: Tree) {
    match t
    case TExec(args) => |args| < MAXARGS && forall k :: 0 <= k < |args| ==> Word(args[k])
    case TRedir(u, f, _) => WellFormed(u) && Word(f)
    case TPipe(l, r) => WellFormed(l) && WellFormed(r)
    case TList(l, r) => WellFormed(l) && WellFormed(r)
    case TBack(u) => WellFormed(u)
  }

  function Join(ws: seq<string>): string {
    if ws == [] then "" else if |ws| == 1 then ws[0] else ws[0] + " " + Join(ws[1..])
  }

  function Op(m: Mode): string {
    match m
    case Read => "<"
    case Write => ">"
    case Append => ">>"
  }

  function Block(t: Tree): string
    decreases t, 1
  {
    "(" + Print(t) + ")"
  }

  /** The tree with every part in parentheses. */
  function Print(t: Tree): string
    decreases t, 0
  {
    match t
    case TExec(args) => Join(args)
    case TRedir(u, f, m) => Block(u) + (Op(m) + f)
    case TPipe(l, r) => Block(l) + ("|" + Block(r))
    case TList(l, r) => Block(l) + (";" + Block(r))
    case TBack(u) => Block(u) + "&"
  }

  predicate SpanIs(s: string, w: Span, text: string) {
    w.q <= w.e <= |s| && s[w.q..w.e] == text
  }

  /** The parsed command, read off the line, is this tree. */
  ghost predicate Reads(s: string, c: Cmd, t: Tree) {
    match t
    case TExec(ws) => c.Exec? && |c.args| == |ws| && forall k :: 0 <= k < |ws| ==> SpanIs(s, c.args[k], ws[k])
    case TRedir(u, f, m) => c.Redir? && c.mode == m && SpanIs(s, c.file, f) && Reads(s, c.cmd, u)
    case TPipe(l, r) => c.Pipe? && Reads(s, c.left, l) && Reads(s, c.right, r)
    case TList(l, r) => c.List? && Reads(s, c.left, l) && Reads(s, c.right, r)
    case TBack(u) => c.Back? && Reads(s, c.cmd, u)
  }

  // ----------------------------------------------------------------- positions

  /** The text `p` stands at position `i`. */
  predicate At(s: string, i: nat, p: string) {
    i + |p| <= |s| && s[i..i + |p|] == p
  }

  /** The end of the line or of a block. */
  predicate Stop(s: string, i: nat) {
    i == |s| || (i < |s| && s[i] == ')')
  }

  lemma AtParts(s: string, i: nat, p: string, q: string)
    requires At(s, i, p + q)
    ensures At(s, i, p) && At(s, i + |p|, q)
  {
    assert s[i..i + |p|] == (p + q)[..|p|];
    assert s[i + |p|..i + |p| + |q|] == (p + q)[|p|..];
  }

  lemma NoSpaceHere(s: string, i: nat)
    requires i <= |s| && (i < |s| ==> !IsSpace(s[i]))
    ensures Skip(s, i) == i
  {
  }

  /** A one-character token with no space after it. */
  lemma SymbolToken(s: string, i: nat)
    requires i < |s| && IsSymbol(s[i]) && s[i] != '>' && (i + 1 < |s| ==> !IsSpace(s[i + 1]))
    ensures GetToken(s, i) == Token(s[i], Span(i, i + 1), i + 1)
  {
    NoSpaceHere(s, i);
    NoSpaceHere(s, i + 1);
  }

  lemma WordToken(s: string, i: nat, w: string)
    requires Word(w) && At(s, i, w) && (i + |w| < |s| ==> !IsWordChar(s[i + |w|]))
    ensures GetToken(s, i) == Token('a', Span(i, i + |w|), Skip(s, i + |w|)) && IsWordChar(s[i])
  {
    assert s[i..i + |w|][0] == w[0];
    NoSpaceHere(s, i);
    WordEndIs(s, i, w);
  }

  lemma WordEndIs(s: string, i: nat, w: string)
    requires At(s, i, w) && (forall k :: 0 <= k < |w| ==> IsWordChar(w[k]))
    requires (i + |w| < |s| ==> !IsWordChar(s[i + |w|]))
    ensures WordEnd(s, i) == i + |w|
  {
    forall k | i <= k < i + |w| ensures IsWordChar(s[k]) { assert s[i..i + |w|][k - i] == w[k - i]; }
  }

  // ---------------------------------------------------------------------- exec

  lemma StopEnds(s: string, i: nat, c: Cmd, argc: nat)
    requires i <= |s| && Stop(s, i)
    ensures Skip(s, i) == i && Redirs(s, i, c) == Ok(c, i) && Args(s, i, argc, c) == Ok(c, i)
    ensures Backs(s, i, c) == (c, i)
    ensures !Peek(s, i, "|") && !Peek(s, i, "&") && !Peek(s, i, ";") && !Peek(s, i, "(")
  {
    NoSpaceHere(s, i);
  }

  lemma {:induction false} ArgsOf(s: string, i: nat, acc: seq<Span>, ws: seq<string>) returns (spans: seq<Span>)
    requires |acc| + |ws| < MAXARGS && (forall k :: 0 <= k < |ws| ==> Word(ws[k]))
    requires At(s, i, Join(ws)) && Stop(s, i + |Join(ws)|)
    ensures |spans| == |ws| && forall k :: 0 <= k < |ws| ==> SpanIs(s, spans[k], ws[k])
    ensures Args(s, i, |acc|, Exec(acc)) == Ok(Exec(acc + spans), i + |Join(ws)|)
    decreases |ws|
  {
    hide Args, Join, Stop, Word, Skip;
    if ws == [] {
      assert Join(ws) == "" by { JoinNone(); }
      StopEnds(s, i, Exec(acc), |acc|);
      spans := [];
      assert acc + spans == acc;
    } else {
      var w, rest := ws[0], ws[1..];
      var next := AfterWord(s, i, ws);
      FirstArg(s, i, |acc|, Exec(acc), w, next);
      WordSpan(s, i, w);
      var more := ArgsOf(s, next, acc + [Span(i, i + |w|)], rest);
      spans := [Span(i, i + |w|)] + more;
      assert acc + spans == acc + [Span(i, i + |w|)] + more;
    }
  }

  lemma JoinNone()
    ensures Join([]) == ""
  {
  }

  lemma WordSpan(s: string, i: nat, w: string)
    requires At(s, i, w)
    ensures SpanIs(s, Span(i, i + |w|), w)
  {
  }

  /** Where the next word starts. */
  lemma AfterWord(s: string, i: nat, ws: seq<string>) returns (next: nat)
    requires ws != [] && (forall k :: 0 <= k < |ws| ==> Word(ws[k])) && At(s, i, Join(ws)) && Stop(s, i + |Join(ws)|)
    ensures At(s, i, ws[0]) && (i + |ws[0]| < |s| ==> !IsWordChar(s[i + |ws[0]|])) && next == Skip(s, i + |ws[0]|)
    ensures next <= |s| && At(s, next, Join(ws[1..])) && next + |Join(ws[1..])| == i + |Join(ws)|
    ensures next < |s| ==> IsWordChar(s[next]) || s[next] == ')'
  {
    var w := ws[0];
    if |ws| == 1 {
      next := i + |w|;
      NoSpaceHere(s, next);
    } else {
      next := i + |w| + 1;
      var tail := Join(ws[1..]);
      AtParts(s, i, w + " ", tail);
      AtParts(s, i, w, " ");
      assert s[i + |w|..i + |w| + 1][0] == ' ';
      assert tail[0] == ws[1][0];
      assert s[next..next + |tail|][0] == tail[0];
      NoSpaceHere(s, next);
    }
  }

  lemma FirstArg(s: string, i: nat, argc: nat, c: Cmd, w: string, next: nat)
    requires Word(w) && At(s, i, w) && (i + |w| < |s| ==> !IsWordChar(s[i + |w|])) && next == Skip(s, i + |w|)
    requires argc + 1 < MAXARGS
    requires next < |s| ==> IsWordChar(s[next]) || s[next] == ')'
    ensures Args(s, i, argc, c) == Args(s, next, argc + 1, AddArg(c, Span(i, i + |w|)))
  {
    WordToken(s, i, w);
    NoSpaceHere(s, i);
    NoSpaceHere(s, next);
  }

  // --------------------------------------------------------------------- trees

  /** What a printed tree begins with is no space. */
  lemma PrintHead(t: Tree)
    requires WellFormed(t) && Print(t) != ""
    ensures !IsSpace(Print(t)[0])
  {
    if t.TExec? { assert Print(t)[0] == t.args[0][0]; }
  }

  /** A line that is the printed form of a tree, up to its end or that of a block. */
  lemma {:induction false} LineOf(s: string, i: nat, t: Tree) returns (c: Cmd)
    requires WellFormed(t) && At(s, i, Print(t)) && Stop(s, i + |Print(t)|)
    ensures ParseLine(s, i) == Ok(c, i + |Print(t)|) && Reads(s, c, t)
    decreases t, 1
  {
    hide ParseLine, ParsePipe, ParseExec, Redirs, Args, Stop, Reads;
    match t {
      case TExec(ws) =>
        c := LineExec(s, i, ws);
      case TRedir(u, f, m) =>
        var d := BlockOf(s, i, u, Op(m) + f);
        c := RedirOf(s, i, i + |Block(u)|, d, f, m);
        RestOfLine(s, i, c, i + |Print(t)|);
        ReadsRedir(s, c, u, f, m);
      case TPipe(l, r) =>
        c := LineTwo(s, i, t, l, r, "|");
        ReadsPipe(s, c, l, r);
      case TList(l, r) =>
        c := LineTwo(s, i, t, l, r, ";");
        ReadsList(s, c, l, r);
      case TBack(u) =>
        var d := BlockOf(s, i, u, "&");
        c := Back(d);
        BackOf(s, i, d, i + |Print(t)|);
        ReadsBack(s, c, u);
    }
  }

  lemma LineExec(s: string, i: nat, ws: seq<string>) returns (c: Cmd)
    requires WellFormed(TExec(ws)) && At(s, i, Join(ws)) && Stop(s, i + |Join(ws)|)
    ensures ParseLine(s, i) == Ok(c, i + |Join(ws)|) && Reads(s, c, TExec(ws))
  {
    hide ParseLine, Args, Join;
    var spans := ArgsOf(s, i, [], ws);
    c := Exec(spans);
    assert [] + spans == spans;
    ExecLine(s, i, ws, c);
  }

  /** Two blocks with `|` or `;` between them. */
  lemma {:induction false} LineTwo(s: string, i: nat, t: Tree, l: Tree, r: Tree, op: string) returns (c: Cmd)
    requires WellFormed(l) && WellFormed(r) && (op == "|" || op == ";") && (t == TPipe(l, r) || t == TList(l, r))
    requires At(s, i, Block(l) + (op + Block(r))) && Stop(s, i + |Block(l) + (op + Block(r))|)
    ensures ParseLine(s, i) == Ok(c, i + |Block(l) + (op + Block(r))|)
    ensures if op == "|" then c.Pipe? && Reads(s, c.left, l) && Reads(s, c.right, r)
            else c.List? && Reads(s, c.left, l) && Reads(s, c.right, r)
    decreases t, 0
  {
    hide ParseLine, ParsePipe, ParseExec, Redirs, At, Stop, Block, Reads;
    var j, end := i + |Block(l)|, i + |Block(l) + (op + Block(r))|;
    var d := BlockOf(s, i, l, op + Block(r));
    var e := SecondBlock(s, j, op, r);
    if op == "|" {
      c := Pipe(d, e);
      PipeOf(s, i, j, d, e, end);
    } else {
      c := List(d, e);
      ListOf(s, i, j, d, e, end);
    }
  }

  lemma ReadsRedir(s: string, c: Cmd, u: Tree, f: string, m: Mode)
    requires c.Redir? && c.mode == m && SpanIs(s, c.file, f) && Reads(s, c.cmd, u)
    ensures Reads(s, c, TRedir(u, f, m))
  {
  }

  lemma ReadsPipe(s: string, c: Cmd, l: Tree, r: Tree)
    requires c.Pipe? && Reads(s, c.left, l) && Reads(s, c.right, r)
    ensures Reads(s, c, TPipe(l, r))
  {
  }

  lemma ReadsList(s: string, c: Cmd, l: Tree, r: Tree)
    requires c.List? && Reads(s, c.left, l) && Reads(s, c.right, r)
    ensures Reads(s, c, TList(l, r))
  {
  }

  lemma ReadsBack(s: string, c: Cmd, u: Tree)
    requires c.Back? && Reads(s, c.cmd, u)
    ensures Reads(s, c, TBack(u))
  {
  }

  /** A parenthesised tree and what comes after it. */
  lemma {:induction false} BlockOf(s: string, i: nat, t: Tree, rest: string) returns (c: Cmd)
    requires WellFormed(t) && At(s, i, Block(t) + rest)
    ensures Reads(s, c, t) && At(s, i + |Block(t)|, rest)
    ensures var j := i + |Block(t)|; j <= |s| && ((j < |s| ==> !IsSpace(s[j])) ==> ParseExec(s, i) == Redirs(s, j, c))
    decreases t, 2
  {
    hide ParseLine, Redirs, Reads;
    var p := Print(t);
    AtParts(s, i, Block(t), rest);
    AtParts(s, i, "(" + p, ")");
    AtParts(s, i, "(", p);
    var j := i + 1 + |p|;
    assert s[i] == '(' && s[j] == ')' by { assert s[i..i + 1][0] == '(' && s[j..j + 1][0] == ')'; }
    c := LineOf(s, i + 1, t);
    OpenParen(s, i, t);
    NoSpaceHere(s, j);
    if j + 1 < |s| ==> !IsSpace(s[j + 1]) {
      SymbolToken(s, j);
    }
  }

  lemma OpenParen(s: string, i: nat, t: Tree)
    requires WellFormed(t) && i < |s| && s[i] == '(' && At(s, i + 1, Print(t)) && Stop(s, i + 1 + |Print(t)|)
    ensures Peek(s, i, "(") && GetToken(s, i).next == i + 1
  {
    NoSpaceHere(s, i);
    var p := Print(t);
    if p != "" {
      PrintHead(t);
      assert s[i + 1..i + 1 + |p|][0] == p[0];
    }
    SymbolToken(s, i);
  }

  /** The block after `|` or `;`. */
  lemma {:induction false} SecondBlock(s: string, j: nat, op: string, t: Tree) returns (c: Cmd)
    requires WellFormed(t) && |op| == 1 && At(s, j, op + Block(t)) && Stop(s, j + |op + Block(t)|)
    ensures Reads(s, c, t) && j + 1 < |s| && s[j] == op[0] && s[j + 1] == '('
    ensures var end := j + |op + Block(t)|; end <= |s| && ParseExec(s, j + 1) == Redirs(s, end, c)
    decreases t, 3
  {
    hide ParseExec, Redirs, Reads;
    AtParts(s, j, op, Block(t));
    assert s[j] == op[0] by { assert s[j..j + 1][0] == op[0]; }
    assert s[j + 1] == '(' by { assert s[j + 1..j + 1 + |Block(t)|][0] == Block(t)[0]; }
    assert Block(t) + "" == Block(t);
    c := BlockOf(s, j + 1, t, "");
  }

  // What the parsers do around blocks.

  lemma ExecLine(s: string, i: nat, ws: seq<string>, c: Cmd)
    requires (forall k :: 0 <= k < |ws| ==> Word(ws[k])) && At(s, i, Join(ws)) && Stop(s, i + |Join(ws)|)
    requires Args(s, i, 0, Exec([])) == Ok(c, i + |Join(ws)|)
    ensures ParseLine(s, i) == Ok(c, i + |Join(ws)|)
  {
    hide Args;
    if ws == [] {
      StopEnds(s, i, Exec([]), 0);
    } else {
      assert Join(ws)[0] == ws[0][0];
      assert s[i..i + |Join(ws)|][0] == Join(ws)[0];
      NoSpaceHere(s, i);
    }
    RestOfLine(s, i, c, i + |Join(ws)|);
  }

  lemma RestOfLine(s: string, i: nat, c: Cmd, end: nat)
    requires i <= |s| && end <= |s| && Stop(s, end) && ParseExec(s, i) == Ok(c, end)
    ensures ParseLine(s, i) == Ok(c, end)
  {
    hide ParseExec, ParsePipe, ParseLine;
    RestOfPipe(s, i, c, end);
    LineFromPipe(s, i, c, end);
  }

  lemma RedirOf(s: string, i: nat, j: nat, d: Cmd, f: string, m: Mode) returns (c: Cmd)
    requires i <= j <= |s| && Word(f) && At(s, j, Op(m) + f) && Stop(s, j + |Op(m) + f|)
    requires (j < |s| ==> !IsSpace(s[j])) ==> ParseExec(s, i) == Redirs(s, j, d)
    ensures c == Redir(d, Span(j + |Op(m)|, j + |Op(m) + f|), m) && SpanIs(s, c.file, f)
    ensures ParseExec(s, i) == Ok(c, j + |Op(m) + f|)
  {
    hide ParseExec, Redirs, Skip, GetToken;
    var k, end := j + |Op(m)|, j + |Op(m) + f|;
    AtParts(s, j, Op(m), f);
    WordToken(s, k, f);
    c := Redir(d, Span(k, end), m);
    OpToken(s, j, m, k);
    StopEnds(s, end, c, 0);
    RedirStep(s, j, d);
  }

  lemma RedirStep(s: string, j: nat, d: Cmd)
    requires j <= |s| && Peek(s, j, "<>") && GetToken(s, GetToken(s, j).next).kind == 'a'
    ensures var op := GetToken(s, j); var file := GetToken(s, op.next);
      Redirs(s, j, d) == Redirs(s, file.next, Redir(d, file.span, ModeOf(op.kind)))
  {
    hide GetToken, Peek;
  }

  lemma OpToken(s: string, j: nat, m: Mode, k: nat)
    requires At(s, j, Op(m)) && k == j + |Op(m)| && k < |s| && IsWordChar(s[k])
    ensures Peek(s, j, "<>") && !IsSpace(s[j]) && GetToken(s, j).next == k && ModeOf(GetToken(s, j).kind) == m
  {
    assert s[j..k][0] == Op(m)[0];
    if m == Append { assert s[j..k][1] == '>'; }
    NoSpaceHere(s, j);
    NoSpaceHere(s, k);
  }

  lemma NoRedir(s: string, j: nat, d: Cmd)
    requires j <= |s| && (j < |s| ==> !IsSpace(s[j]) && s[j] != '<' && s[j] != '>')
    ensures Redirs(s, j, d) == Ok(d, j) && Skip(s, j) == j
  {
    NoSpaceHere(s, j);
  }

  lemma PipeOf(s: string, i: nat, j: nat, d: Cmd, e: Cmd, end: nat)
    requires i <= j && j + 1 < |s| && end <= |s| && Stop(s, end) && s[j] == '|' && s[j + 1] == '('
    requires ParseExec(s, i) == Redirs(s, j, d) && ParseExec(s, j + 1) == Redirs(s, end, e)
    ensures ParseLine(s, i) == Ok(Pipe(d, e), end)
  {
    hide ParseExec, Redirs, Backs, ParsePipe, ParseLine, GetToken, Skip;
    NoRedir(s, j, d);
    StopEnds(s, end, e, 0);
    RestOfPipe(s, j + 1, e, end);
    SymbolToken(s, j);
    PipeStep(s, i, j, d);
    LineFromPipe(s, i, Pipe(d, e), end);
  }

  lemma PipeStep(s: string, i: nat, j: nat, d: Cmd)
    requires i <= j < |s| && ParseExec(s, i) == Ok(d, j) && s[j] == '|' && GetToken(s, j).next == j + 1
    ensures ParsePipe(s, i) == match ParsePipe(s, j + 1) case Error => Error case Ok(e, k) => Ok(Pipe(d, e), k)
  {
    hide ParseExec, GetToken;
    NoSpaceHere(s, j);
  }

  lemma RestOfPipe(s: string, i: nat, c: Cmd, end: nat)
    requires i <= |s| && end <= |s| && Stop(s, end) && ParseExec(s, i) == Ok(c, end)
    ensures ParsePipe(s, i) == Ok(c, end)
  {
    hide ParseExec;
    StopEnds(s, end, c, 0);
  }

  lemma LineFromPipe(s: string, i: nat, c: Cmd, end: nat)
    requires i <= |s| && end <= |s| && Stop(s, end) && ParsePipe(s, i) == Ok(c, end)
    ensures ParseLine(s, i) == Ok(c, end)
  {
    hide ParsePipe, Backs;
    StopEnds(s, end, c, 0);
  }

  lemma ListOf(s: string, i: nat, j: nat, d: Cmd, e: Cmd, end: nat)
    requires i <= j && j + 1 < |s| && end <= |s| && Stop(s, end) && s[j] == ';' && s[j + 1] == '('
    requires ParseExec(s, i) == Redirs(s, j, d) && ParseExec(s, j + 1) == Redirs(s, end, e)
    ensures ParseLine(s, i) == Ok(List(d, e), end)
  {
    hide ParseExec, Redirs;
    NoRedir(s, j, d);
    StopEnds(s, end, e, 0);
    RestOfLine(s, j + 1, e, end);
    SymbolToken(s, j);
  }

  lemma BackOf(s: string, i: nat, d: Cmd, end: nat)
    requires 0 < end <= |s| && i < end && Stop(s, end) && At(s, end - 1, "&")
    requires (!IsSpace(s[end - 1])) ==> ParseExec(s, i) == Redirs(s, end - 1, d)
    ensures ParseLine(s, i) == Ok(Back(d), end)
  {
    hide ParseExec, Redirs;
    var j := end - 1;
    assert s[j] == '&' by { assert s[j..j + 1][0] == '&'; }
    NoRedir(s, j, d);
    StopEnds(s, end, Back(d), 0);
    SymbolToken(s, j);
  }

  /** The parser undoes the printer: every tree of proper words comes back from its printed form. */
  lemma RoundTrip(t: Tree)
    requires WellFormed(t)
    ensures ParseCmd(Print(t)).Ok? && Reads(Print(t), ParseCmd(Print(t)).cmd, t)
  {
    hide ParseLine, Reads;
    var s := Print(t);
    assert s[0..0 + |s|] == s;
    var c := LineOf(s, 0, t);
    NoSpaceHere(s, |s|);
  }

  /** Ten words are too many, whatever they are. */
  lemma {:induction false} ArgsTooMany(s: string, i: nat, acc: seq<Span>, ws: seq<string>)
    requires |acc| < MAXARGS <= |acc| + |ws| && (forall k :: 0 <= k < |ws| ==> Word(ws[k]))
    requires At(s, i, Join(ws)) && Stop(s, i + |Join(ws)|)
    ensures Args(s, i, |acc|, Exec(acc)) == Error
    decreases |ws|
  {
    hide Args, Join, Stop, Word, Skip;
    var w := ws[0];
    var next := AfterWord(s, i, ws);
    if |acc| + 1 < MAXARGS {
      FirstArg(s, i, |acc|, Exec(acc), w, next);
      ArgsTooMany(s, next, acc + [Span(i, i + |w|)], ws[1..]);
    } else {
      LastArg(s, i, |acc|, Exec(acc), w);
    }
  }

  lemma LastArg(s: string, i: nat, argc: nat, c: Cmd, w: string)
    requires Word(w) && At(s, i, w) && (i + |w| < |s| ==> !IsWordChar(s[i + |w|])) && argc + 1 >= MAXARGS
    ensures Args(s, i, argc, c) == Error
  {
    WordToken(s, i, w);
    NoSpaceHere(s, i);
  }

  /** A command of proper words is parsed exactly if there are fewer than MAXARGS. */
  lemma WordLimit(ws: seq<string>)
    requires forall k :: 0 <= k < |ws| ==> Word(ws[k])
    ensures ParseCmd(Join(ws)).Ok? <==> |ws| < MAXARGS
  {
    hide ParseLine, Args, Join;
    var s := Join(ws);
    if |ws| < MAXARGS {
      assert Print(TExec(ws)) == s;
      RoundTrip(TExec(ws));
    } else {
      assert s[0..0 + |s|] == s;
      ArgsTooMany(s, 0, [], ws);
      FirstWord(ws);
      NoArgs(s);
    }
  }

  lemma FirstWord(ws: seq<string>)
    requires ws != [] && Word(ws[0])
    ensures Join(ws) != "" && IsWordChar(Join(ws)[0])
  {
    assert Join(ws)[0] == ws[0][0];
  }

  lemma NoArgs(s: string)
    requires s != "" && IsWordChar(s[0]) && Args(s, 0, 0, Exec([])) == Error
    ensures ParseLine(s, 0) == Error
  {
    hide Args;
    NoSpaceHere(s, 0);
    assert ParseExec(s, 0) == Error;
    assert ParsePipe(s, 0) == Error;
  }
}
