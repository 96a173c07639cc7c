/**
 The grammar of command lines, stated apart from the parser: syntax trees, the tokens each tree
 stands for, and the command it means. The parser accepts exactly the lines that some tree
 stands for, and returns what that tree means.
 */
module ShellGrammar {
  import opened ShellSpec

  // -------------------------------------------------------------------- tokens

  datatype Tok = Sym(c: char) | Arrow(m: Mode) | Word(w: Span)

  function TokOf(t: Token): Tok {
    if t.kind == 'a' then Word(t.span)
    else if t.kind == '<' || t.kind == '>' || t.kind == '+' then Arrow(ModeOf(t.kind))
    else Sym(t.kind)
  }

  /** The tokens from position `i` on. */
  function Lex(s: string, i: nat): seq<Tok>
    requires i <= |s|
    decreases |s| - i
  {
    var t := GetToken(s, i);
    if t.kind == '\0' then [] else [TokOf(t)] + Lex(s, t.next)
  }

  // ------------------------------------------------------------------- grammar

  datatype File = File(m: Mode, w: Span)
  datatype Item = Arg(w: Span) | Into(f: File)

  /** A command: words and redirections in any order, or a line in parentheses with redirections. */
  datatype Simple = Command(items: seq<Item>) | Block(line: Line, files: seq<File>)
  datatype PipeLine = One(c: Simple) | More(c: Simple, rest: PipeLine)
  /** A pipeline, any number of `&`, and perhaps `;` and another line. */
  datatype Line = Last(p: PipeLine, amps: nat) | Then(p: PipeLine, amps: nat, rest: Line)

  function FilesToks(fs: seq<File>): seq<Tok> {
    if fs == [] then [] else [Arrow(fs[0].m), Word(fs[0].w)] + FilesToks(fs[1..])
  }

  function ItemsToks(items: seq<Item>): seq<Tok> {
    if items == [] then [] else
    (match items[0]
     case Arg(w) => [Word(w)]
     case Into(f) => [Arrow(f.m), Word(f.w)]) + ItemsToks(items[1..])
  }

  function Amps(n: nat): seq<Tok> {
    if n == 0 then [] else [Sym('&')] + Amps(n - 1)
  }

  function SimpleToks(c: Simple): seq<Tok> {
    match c
    case Command(items) => ItemsToks(items)
    case Block(line, files) => [Sym('(')] + (LineToks(line) + ([Sym(')')] + FilesToks(files)))
  }

  function PipeToks(p: PipeLine): seq<Tok> {
    match p
    case One(c) => SimpleToks(c)
    case More(c, rest) => SimpleToks(c) + ([Sym('|')] + PipeToks(rest))
  }

  function LineToks(l: Line): seq<Tok> {
    match l
    case Last(p, n) => PipeToks(p) + Amps(n)
    case Then(p, n, rest) => PipeToks(p) + (Amps(n) + ([Sym(';')] + LineToks(rest)))
  }

  // ------------------------------------------------------------------- meaning

  function ArgsOf(items: seq<Item>): seq<Span> {
    if items == [] then [] else (if items[0].Arg? then [items[0].w] else []) + ArgsOf(items[1..])
  }

  function FilesOf(items: seq<Item>): seq<File> {
    if items == [] then [] else (if items[0].Into? then [items[0].f] else []) + FilesOf(items[1..])
  }

  /** Redirections are wrapped around a command, the first one innermost. */
  function Wrapped(c: Cmd, fs: seq<File>): Cmd
    decreases |fs|
  {
    if fs == [] then c else Wrapped(Redir(c, fs[0].w, fs[0].m), fs[1..])
  }

  function Backed(c: Cmd, n: nat): Cmd
    decreases n
  {
    if n == 0 then c else Backed(Back(c), n - 1)
  }

  function SimpleMeans(c: Simple): Cmd {
    match c
    case Command(items) => Wrapped(Exec(ArgsOf(items)), FilesOf(items))
    case Block(line, files) => Wrapped(LineMeans(line), files)
  }

  function PipeMeans(p: PipeLine): Cmd {
    match p
    case One(c) => SimpleMeans(c)
    case More(c, rest) => ShellSpec.Pipe(SimpleMeans(c), PipeMeans(rest))
  }

  function LineMeans(l: Line): Cmd {
    match l
    case Last(p, n) => Backed(PipeMeans(p), n)
    case Then(p, n, rest) => List(Backed(PipeMeans(p), n), LineMeans(rest))
  }

  /** No command has more words than `parseexec` takes. */
  predicate SimpleFits(c: Simple) {
    match c
    case Command(items) => |ArgsOf(items)| < MAXARGS
    case Block(line, _) => LineFits(line)
  }

  predicate PipeFits(p: PipeLine) {
    match p
    case One(c) => SimpleFits(c)
    case More(c, rest) => SimpleFits(c) && PipeFits(rest)
  }

  predicate LineFits(l: Line) {
    match l
    case Last(p, _) => PipeFits(p)
    case Then(p, _, rest) => PipeFits(p) && LineFits(rest)
  }

  // ------------------------------------------------------- the parser on tokens

  datatype Out = Good(cmd: Cmd, rest: seq<Tok>) | Bad

  predicate Starts(ts: seq<Tok>, cs: string) {
    ts != [] && ts[0].Sym? && ts[0].c in cs
  }

  function TRedirs(ts: seq<Tok>, c: Cmd): (r: Out)
    ensures r.Good? ==> |r.rest| <= |ts|
  {
    if ts == [] || !ts[0].Arrow? then Good(c, ts)
    else if |ts| < 2 || !ts[1].Word? then Bad
    else TRedirs(ts[2..], Redir(c, ts[1].w, ts[0].m))
  }

  function TArgs(ts: seq<Tok>, argc: nat, c: Cmd): (r: Out)
    ensures r.Good? ==> |r.rest| <= |ts|
    decreases |ts|
  {
    if ts == [] || Starts(ts, "|)&;") then Good(c, ts)
    else if !ts[0].Word? || argc + 1 >= MAXARGS then Bad
    else match TRedirs(ts[1..], AddArg(c, ts[0].w))
      case Bad => Bad
      case Good(d, rest) => TArgs(rest, argc + 1, d)
  }

  function TItems(ts: seq<Tok>, argc: nat, c: Cmd): (r: Out)
    ensures r.Good? ==> |r.rest| <= |ts|
  {
    match TRedirs(ts, c)
    case Bad => Bad
    case Good(d, rest) => TArgs(rest, argc, d)
  }

  function TExec(ts: seq<Tok>): (r: Out)
    ensures r.Good? ==> |r.rest| <= |ts|
    decreases |ts|, 0
  {
    if Starts(ts, "(") then
      match TLine(ts[1..])
      case Bad => Bad
      case Good(c, rest) => if !Starts(rest, ")") then Bad else TRedirs(rest[1..], c)
    else TItems(ts, 0, Exec([]))
  }

  function TPipe(ts: seq<Tok>): (r: Out)
    ensures r.Good? ==> |r.rest| <= |ts|
    decreases |ts|, 1
  {
    match TExec(ts)
    case Bad => Bad
    case Good(c, rest) =>
      if !Starts(rest, "|") then Good(c, rest) else
      match TPipe(rest[1..])
      case Bad => Bad
      case Good(d, more) => Good(ShellSpec.Pipe(c, d), more)
  }

  function TBacks(ts: seq<Tok>, c: Cmd): (r: (Cmd, seq<Tok>))
    ensures |r.1| <= |ts|
  {
    if !Starts(ts, "&") then (c, ts) else TBacks(ts[1..], Back(c))
  }

  function TLine(ts: seq<Tok>): (r: Out)
    ensures r.Good? ==> |r.rest| <= |ts|
    decreases |ts|, 2
  {
    match TPipe(ts)
    case Bad => Bad
    case Good(c, rest) =>
      var (d, more) := TBacks(rest, c);
      if !Starts(more, ";") then Good(d, more) else
      match TLine(more[1..])
      case Bad => Bad
      case Good(e, end) => Good(List(d, e), end)
  }

  // -------------------------------------------------------- from line to tokens

  lemma LexSkip(s: string, i: nat)
    requires i <= |s|
    ensures Lex(s, Skip(s, i)) == Lex(s, i)
  {
    SkipSkip(s, i);
  }

  /** The kind of the first token, by its first character. */
  lemma {:induction false} FirstToken(s: string, i: nat)
    requires i <= |s|
    ensures var ts, t, j := Lex(s, i), GetToken(s, i), Skip(s, i);
      && (ts == [] <==> j == |s|) && (t.kind == '\0' <==> j == |s|) && (j == |s| ==> t.next == |s|)
      && (j < |s| ==> ts[0] == TokOf(t) && ts[1..] == Lex(s, t.next) && (t.kind == 'a' <==> IsWordChar(s[j])))
      && (j < |s| && IsSymbol(s[j]) && s[j] != '>' ==> t.kind == s[j])
      && (j < |s| && s[j] == '>' ==> t.kind == '>' || t.kind == '+')
  {
    hide Skip, WordEnd;
  }

  lemma {:induction false} PeekStarts(s: string, i: nat, cs: string)
    requires i <= |s| && forall c :: c in cs ==> IsSymbol(c) && c != '<' && c != '>'
    ensures Peek(s, i, cs) <==> Starts(Lex(s, i), cs)
  {
    hide Lex, Skip, GetToken;
    FirstToken(s, i);
  }

  /** The first token, and what `peek` sees of it. */
  lemma {:induction false} LexHead(s: string, i: nat)
    requires i <= |s|
    ensures var ts, t := Lex(s, i), GetToken(s, i);
      && (ts == [] <==> t.kind == '\0') && (ts == [] <==> Skip(s, i) == |s|)
      && (ts != [] ==> ts[0] == TokOf(t) && ts[1..] == Lex(s, t.next))
      && (ts == [] ==> t.next == |s|) && (t.kind != '\0' ==> i < t.next)
    ensures Peek(s, i, "<>") <==> Lex(s, i) != [] && Lex(s, i)[0].Arrow?
  {
    hide Lex, Skip, GetToken;
    FirstToken(s, i);
    TokenMoves(s, i);
  }

  lemma TokenMoves(s: string, i: nat)
    requires i <= |s|
    ensures GetToken(s, i).kind != '\0' ==> i < GetToken(s, i).next
  {
  }

  /** The token parser does on the tokens what the parser does on the line. */
  predicate Same(s: string, r: Parsed, o: Out) {
    match r
    case Error => o.Bad?
    case Ok(c, j) => j <= |s| && o == Good(c, Lex(s, j))
  }

  lemma {:induction false} RedirsSame(s: string, i: nat, c: Cmd)
    requires i <= |s|
    ensures Same(s, Redirs(s, i, c), TRedirs(Lex(s, i), c))
    decreases |s| - i
  {
    hide Peek, Lex, Skip, GetToken;
    LexHead(s, i);
    LexSkip(s, i);
    if Peek(s, i, "<>") {
      var op := GetToken(s, i);
      LexHead(s, op.next);
      var file := GetToken(s, op.next);
      if file.kind == 'a' {
        assert Lex(s, i)[2..] == Lex(s, file.next);
        RedirsSame(s, file.next, Redir(c, file.span, ModeOf(op.kind)));
      }
    }
  }

  lemma {:induction false} ArgsSame(s: string, i: nat, argc: nat, c: Cmd)
    requires i <= |s|
    ensures Same(s, Args(s, i, argc, c), TArgs(Lex(s, i), argc, c))
    decreases |s| - i
  {
    hide Peek, Lex, Skip, GetToken, Redirs, TRedirs, AddArg, Starts;
    LexHead(s, i);
    LexSkip(s, i);
    PeekStarts(s, i, "|)&;");
    var t := GetToken(s, i);
    if !Peek(s, i, "|)&;") && t.kind == 'a' && argc + 1 < MAXARGS {
      RedirsSame(s, t.next, AddArg(c, t.span));
      var r := Redirs(s, t.next, AddArg(c, t.span));
      if r.Ok? { ArgsSame(s, r.pos, argc + 1, r.cmd); }
    }
  }

  lemma {:induction false} ExecSame(s: string, i: nat)
    requires i <= |s|
    ensures Same(s, ParseExec(s, i), TExec(Lex(s, i)))
    decreases |s| - i, 0
  {
    hide Peek, Lex, Skip, GetToken;
    LexHead(s, i);
    PeekStarts(s, i, "(");
    if Peek(s, i, "(") {
      PeekToken(s, i, "(");
      var j := GetToken(s, i).next;
      LineSame(s, j);
      var r := ParseLine(s, j);
      if r.Ok? {
        LexHead(s, r.pos);
        PeekStarts(s, r.pos, ")");
        RedirsSame(s, GetToken(s, r.pos).next, r.cmd);
      }
    } else {
      RedirsSame(s, i, Exec([]));
      var r := Redirs(s, i, Exec([]));
      if r.Ok? { ArgsSame(s, r.pos, 0, r.cmd); }
    }
  }

  lemma {:induction false} PipeSame(s: string, i: nat)
    requires i <= |s|
    ensures Same(s, ParsePipe(s, i), TPipe(Lex(s, i)))
    decreases |s| - i, 1
  {
    hide Peek, Lex, Skip, GetToken;
    ExecSame(s, i);
    var r := ParseExec(s, i);
    if r.Ok? {
      LexHead(s, r.pos);
      LexSkip(s, r.pos);
      PeekStarts(s, r.pos, "|");
      if Peek(s, r.pos, "|") {
        PeekToken(s, r.pos, "|");
        PipeSame(s, GetToken(s, r.pos).next);
      }
    }
  }

  lemma {:induction false} BacksSame(s: string, i: nat, c: Cmd)
    requires i <= |s|
    ensures var (d, j) := Backs(s, i, c); TBacks(Lex(s, i), c) == (d, Lex(s, j))
    decreases |s| - i
  {
    hide Peek, Lex, Skip, GetToken;
    LexHead(s, i);
    LexSkip(s, i);
    PeekStarts(s, i, "&");
    if Peek(s, i, "&") {
      PeekToken(s, i, "&");
      BacksSame(s, GetToken(s, i).next, Back(c));
    }
  }

  lemma {:induction false} LineSame(s: string, i: nat)
    requires i <= |s|
    ensures Same(s, ParseLine(s, i), TLine(Lex(s, i)))
    decreases |s| - i, 2
  {
    hide Peek, Lex, Skip, GetToken;
    PipeSame(s, i);
    var r := ParsePipe(s, i);
    if r.Ok? {
      BacksSame(s, r.pos, r.cmd);
      var (d, k) := Backs(s, r.pos, r.cmd);
      LexHead(s, k);
      LexSkip(s, k);
      PeekStarts(s, k, ";");
      if Peek(s, k, ";") {
        PeekToken(s, k, ";");
        LineSame(s, GetToken(s, k).next);
      }
    }
  }

  // ------------------------------------------------------ words and redirections

  /** What the parser makes of a command's items, one after the other. */
  function Fold(c: Cmd, items: seq<Item>): Cmd
    decreases |items|
  {
    if items == [] then c else
    var d := if items[0].Arg? then AddArg(c, items[0].w) else Redir(c, items[0].f.w, items[0].f.m);
    Fold(d, items[1..])
  }

  lemma {:induction false} AddArgWrapped(c: Cmd, fs: seq<File>, w: Span)
    ensures AddArg(Wrapped(c, fs), w) == Wrapped(AddArg(c, w), fs)
    decreases |fs|
  {
    if fs != [] { AddArgWrapped(Redir(c, fs[0].w, fs[0].m), fs[1..], w); }
  }

  lemma {:induction false} WrapLast(c: Cmd, fs: seq<File>, f: File)
    ensures Redir(Wrapped(c, fs), f.w, f.m) == Wrapped(c, fs + [f])
    decreases |fs|
  {
    if fs != [] {
      WrapLast(Redir(c, fs[0].w, fs[0].m), fs[1..], f);
      assert (fs + [f])[1..] == fs[1..] + [f];
    } else {
      assert fs + [f] == [f];
    }
  }

  lemma AddArgExec(args: seq<Span>, w: Span)
    ensures AddArg(Exec(args), w) == Exec(args + [w])
  {
  }

  /** Arguments are gathered in order, wherever redirections stand between them. */
  lemma {:induction false} FoldMeans(args: seq<Span>, files: seq<File>, items: seq<Item>)
    ensures Fold(Wrapped(Exec(args), files), items) == Wrapped(Exec(args + ArgsOf(items)), files + FilesOf(items))
    decreases |items|
  {
    hide Wrapped, AddArg, ArgsOf, FilesOf;
    ItemsOf(items);
    if items == [] {
      assert args + ArgsOf(items) == args && files + FilesOf(items) == files;
    } else if items[0].Arg? {
      var w, more := items[0].w, items[1..];
      AddArgWrapped(Exec(args), files, w);
      AddArgExec(args, w);
      FoldMeans(args + [w], files, more);
      assert args + [w] + ArgsOf(more) == args + ([w] + ArgsOf(more));
    } else {
      var f, more := items[0].f, items[1..];
      WrapLast(Exec(args), files, f);
      FoldMeans(args, files + [f], more);
      assert files + [f] + FilesOf(more) == files + ([f] + FilesOf(more));
    }
  }

  lemma {:induction false} ItemsOf(items: seq<Item>)
    ensures items == [] ==> ArgsOf(items) == [] && FilesOf(items) == []
    ensures items != [] && items[0].Arg? ==>
      ArgsOf(items) == [items[0].w] + ArgsOf(items[1..]) && FilesOf(items) == FilesOf(items[1..])
    ensures items != [] && items[0].Into? ==>
      ArgsOf(items) == ArgsOf(items[1..]) && FilesOf(items) == [items[0].f] + FilesOf(items[1..])
  {
    if items != [] { assert [] + ArgsOf(items[1..]) == ArgsOf(items[1..]) && [] + FilesOf(items[1..]) == FilesOf(items[1..]); }
  }

  lemma CommandMeans(items: seq<Item>)
    ensures Fold(Exec([]), items) == SimpleMeans(Command(items))
  {
    FoldMeans([], [], items);
    assert [] + ArgsOf(items) == ArgsOf(items) && [] + FilesOf(items) == FilesOf(items);
  }

  // --------------------------------------------------------------- completeness

  /** What may follow a command, a pipeline and a line. */
  predicate EndSimple(ts: seq<Tok>) { ts == [] || Starts(ts, "|)&;") }

  predicate EndPipe(ts: seq<Tok>) { ts == [] || Starts(ts, ")&;") }

  predicate EndLine(ts: seq<Tok>) { ts == [] || Starts(ts, ")") }

  lemma {:induction false} ArgStep(ts: seq<Tok>, argc: nat, c: Cmd)
    requires ts != [] && ts[0].Word? && argc + 1 < MAXARGS
    ensures TItems(ts, argc, c) == TItems(ts[1..], argc + 1, AddArg(c, ts[0].w))
  {
  }

  lemma {:induction false} FileStep(ts: seq<Tok>, argc: nat, c: Cmd)
    requires |ts| >= 2 && ts[0].Arrow? && ts[1].Word?
    ensures TItems(ts, argc, c) == TItems(ts[2..], argc, Redir(c, ts[1].w, ts[0].m))
  {
  }

  lemma NoItems(ts: seq<Tok>, argc: nat, c: Cmd)
    requires EndSimple(ts)
    ensures TItems(ts, argc, c) == Good(c, ts)
  {
  }

  lemma DropHead(h: seq<Tok>, t: seq<Tok>, rest: seq<Tok>)
    ensures (h + t) + rest == h + (t + rest) && (h + (t + rest))[|h|..] == t + rest
    ensures forall k :: 0 <= k < |h| ==> (h + (t + rest))[k] == h[k]
  {
  }

  /** What the first item stands for. */
  lemma {:induction false} ItemsHead(items: seq<Item>, rest: seq<Tok>)
    requires items != []
    ensures var ts, tl := ItemsToks(items) + rest, ItemsToks(items[1..]) + rest;
      if items[0].Arg? then ts != [] && ts[0] == Word(items[0].w) && ts[1..] == tl
      else |ts| >= 2 && ts[0] == Arrow(items[0].f.m) && ts[1] == Word(items[0].f.w) && ts[2..] == tl
  {
    if items[0].Arg? {
      DropHead([Word(items[0].w)], ItemsToks(items[1..]), rest);
    } else {
      DropHead([Arrow(items[0].f.m), Word(items[0].f.w)], ItemsToks(items[1..]), rest);
    }
  }

  lemma {:induction false} ItemsComplete(items: seq<Item>, rest: seq<Tok>, argc: nat, c: Cmd)
    requires EndSimple(rest) && argc + |ArgsOf(items)| < MAXARGS
    ensures TItems(ItemsToks(items) + rest, argc, c) == Good(Fold(c, items), rest)
    decreases |items|
  {
    hide TItems, AddArg;
    if items == [] {
      assert ItemsToks(items) + rest == rest;
      NoItems(rest, argc, c);
    } else {
      ItemsHead(items, rest);
      var ts := ItemsToks(items) + rest;
      if items[0].Arg? {
        ArgStep(ts, argc, c);
        ItemsComplete(items[1..], rest, argc + 1, AddArg(c, items[0].w));
      } else {
        FileStep(ts, argc, c);
        ItemsComplete(items[1..], rest, argc, Redir(c, items[0].f.w, items[0].f.m));
      }
    }
  }

  lemma {:induction false} FilesComplete(fs: seq<File>, rest: seq<Tok>, c: Cmd)
    requires EndSimple(rest)
    ensures TRedirs(FilesToks(fs) + rest, c) == Good(Wrapped(c, fs), rest)
    decreases |fs|
  {
    if fs == [] {
      assert FilesToks(fs) + rest == rest;
    } else {
      FilesComplete(fs[1..], rest, Redir(c, fs[0].w, fs[0].m));
      DropHead([Arrow(fs[0].m), Word(fs[0].w)], FilesToks(fs[1..]), rest);
    }
  }

  lemma {:induction false} SimpleComplete(x: Simple, rest: seq<Tok>)
    requires SimpleFits(x) && EndSimple(rest)
    ensures TExec(SimpleToks(x) + rest) == Good(SimpleMeans(x), rest)
    decreases x, 0
  {
    hide TLine, TItems, TRedirs;
    match x
    case Command(items) =>
      ItemsComplete(items, rest, 0, Exec([]));
      CommandMeans(items);
    case Block(line, files) =>
      var tail := [Sym(')')] + (FilesToks(files) + rest);
      LineComplete(line, tail);
      var ts := SimpleToks(x) + rest;
      assert ts[1..] == LineToks(line) + tail;
      assert tail[1..] == FilesToks(files) + rest;
      FilesComplete(files, rest, LineMeans(line));
  }

  lemma {:induction false} PipeComplete(p: PipeLine, rest: seq<Tok>)
    requires PipeFits(p) && EndPipe(rest)
    ensures TPipe(PipeToks(p) + rest) == Good(PipeMeans(p), rest)
    decreases p, 1
  {
    hide TExec;
    match p
    case One(c) => SimpleComplete(c, rest);
    case More(c, more) =>
      var tail := [Sym('|')] + (PipeToks(more) + rest);
      SimpleComplete(c, tail);
      assert PipeToks(p) + rest == SimpleToks(c) + tail;
      assert tail[1..] == PipeToks(more) + rest;
      PipeComplete(more, rest);
  }

  lemma {:induction false} AmpsComplete(n: nat, rest: seq<Tok>, c: Cmd)
    requires !Starts(rest, "&")
    ensures TBacks(Amps(n) + rest, c) == (Backed(c, n), rest)
    decreases n
  {
    if n == 0 {
      assert [] + rest == rest;
    } else {
      AmpsComplete(n - 1, rest, Back(c));
      assert (Amps(n) + rest)[1..] == Amps(n - 1) + rest;
    }
  }

  lemma {:induction false} LineComplete(l: Line, rest: seq<Tok>)
    requires LineFits(l) && EndLine(rest)
    ensures TLine(LineToks(l) + rest) == Good(LineMeans(l), rest)
    decreases l, 2
  {
    hide TPipe, TBacks;
    var tail := if l.Last? then rest else [Sym(';')] + (LineToks(l.rest) + rest);
    PipeComplete(l.p, Amps(l.amps) + tail);
    assert LineToks(l) + rest == PipeToks(l.p) + (Amps(l.amps) + tail);
    AmpsComplete(l.amps, tail, PipeMeans(l.p));
    if l.Then? {
      assert tail[1..] == LineToks(l.rest) + rest;
      LineComplete(l.rest, rest);
    }
  }

  // ------------------------------------------------------------------ soundness

  /** What an accepted list of items starts with. */
  lemma {:induction false} ItemsCases(ts: seq<Tok>, argc: nat, c: Cmd)
    requires TItems(ts, argc, c).Good? && !EndSimple(ts)
    ensures (|ts| >= 2 && ts[0].Arrow? && ts[1].Word?) || (ts[0].Word? && argc + 1 < MAXARGS)
  {
  }

  lemma {:induction false} ItemsSound(ts: seq<Tok>, argc: nat, c: Cmd) returns (items: seq<Item>)
    requires TItems(ts, argc, c).Good? && argc < MAXARGS
    ensures var o := TItems(ts, argc, c);
      ts == ItemsToks(items) + o.rest && o.cmd == Fold(c, items) && argc + |ArgsOf(items)| < MAXARGS
    decreases |ts|
  {
    hide TItems, AddArg;
    if EndSimple(ts) {
      items := [];
      NoItems(ts, argc, c);
      assert ItemsToks(items) + ts == ts;
      return;
    }
    ItemsCases(ts, argc, c);
    if ts[0].Arrow? {
      FileStep(ts, argc, c);
      var d := Redir(c, ts[1].w, ts[0].m);
      var more := ItemsSound(ts[2..], argc, d);
      items := [Into(File(ts[0].m, ts[1].w))] + more;
      assert items[1..] == more && ts == [ts[0], ts[1]] + ts[2..];
      DropHead([ts[0], ts[1]], ItemsToks(more), TItems(ts[2..], argc, d).rest);
    } else {
      ArgStep(ts, argc, c);
      var d := AddArg(c, ts[0].w);
      var more := ItemsSound(ts[1..], argc + 1, d);
      items := [Arg(ts[0].w)] + more;
      assert items[1..] == more && ts == [ts[0]] + ts[1..];
      DropHead([ts[0]], ItemsToks(more), TItems(ts[1..], argc + 1, d).rest);
    }
  }

  lemma {:induction false} RedirStep(ts: seq<Tok>, c: Cmd)
    ensures ts == [] || !ts[0].Arrow? ==> TRedirs(ts, c) == Good(c, ts)
    ensures ts != [] && ts[0].Arrow? && TRedirs(ts, c).Good? ==>
      |ts| >= 2 && ts[1].Word? && TRedirs(ts, c) == TRedirs(ts[2..], Redir(c, ts[1].w, ts[0].m))
  {
  }

  lemma {:induction false} FilesSound(ts: seq<Tok>, c: Cmd) returns (fs: seq<File>)
    requires TRedirs(ts, c).Good?
    ensures var o := TRedirs(ts, c); ts == FilesToks(fs) + o.rest && o.cmd == Wrapped(c, fs)
    decreases |ts|
  {
    hide TRedirs;
    RedirStep(ts, c);
    if ts == [] || !ts[0].Arrow? {
      fs := [];
      assert FilesToks(fs) + ts == ts;
    } else {
      var d := Redir(c, ts[1].w, ts[0].m);
      var more := FilesSound(ts[2..], d);
      fs := [File(ts[0].m, ts[1].w)] + more;
      assert fs[1..] == more && ts == [ts[0], ts[1]] + ts[2..];
      DropHead([ts[0], ts[1]], FilesToks(more), TRedirs(ts[2..], d).rest);
    }
  }

  lemma {:induction false} SimpleSound(ts: seq<Tok>) returns (x: Simple)
    requires TExec(ts).Good?
    ensures var o := TExec(ts); SimpleFits(x) && ts == SimpleToks(x) + o.rest && o.cmd == SimpleMeans(x)
    decreases |ts|, 0
  {
    hide TLine, TItems, TRedirs;
    if Starts(ts, "(") {
      var line := LineSound(ts[1..]);
      var r := TLine(ts[1..]).rest;
      var files := FilesSound(r[1..], LineMeans(line));
      x := Block(line, files);
      assert ts == [ts[0]] + ts[1..] && r == [r[0]] + r[1..];
    } else {
      var items := ItemsSound(ts, 0, Exec([]));
      CommandMeans(items);
      x := Command(items);
    }
  }

  lemma {:induction false} PipeSound(ts: seq<Tok>) returns (p: PipeLine)
    requires TPipe(ts).Good?
    ensures var o := TPipe(ts); PipeFits(p) && ts == PipeToks(p) + o.rest && o.cmd == PipeMeans(p)
    decreases |ts|, 1
  {
    hide TExec;
    var c := SimpleSound(ts);
    var r := TExec(ts).rest;
    if Starts(r, "|") {
      var more := PipeSound(r[1..]);
      p := More(c, more);
      assert r == [r[0]] + r[1..];
    } else {
      p := One(c);
    }
  }

  lemma {:induction false} AmpsSound(ts: seq<Tok>, c: Cmd) returns (n: nat)
    ensures var (d, r) := TBacks(ts, c); ts == Amps(n) + r && d == Backed(c, n)
    decreases |ts|
  {
    if Starts(ts, "&") {
      var m := AmpsSound(ts[1..], Back(c));
      n := m + 1;
      assert ts == [ts[0]] + ts[1..];
    } else {
      n := 0;
      assert [] + ts == ts;
    }
  }

  lemma {:induction false} LineSound(ts: seq<Tok>) returns (l: Line)
    requires TLine(ts).Good?
    ensures var o := TLine(ts); LineFits(l) && ts == LineToks(l) + o.rest && o.cmd == LineMeans(l)
    decreases |ts|, 2
  {
    hide TPipe, TBacks;
    var p := PipeSound(ts);
    var o := TPipe(ts);
    var n := AmpsSound(o.rest, o.cmd);
    var (d, r) := TBacks(o.rest, o.cmd);
    if Starts(r, ";") {
      var rest := LineSound(r[1..]);
      l := Then(p, n, rest);
      assert r == [r[0]] + r[1..];
    } else {
      l := Last(p, n);
    }
  }

  // -------------------------------------------------------------------- theorem

  /** The tree stands for this line. */
  predicate Derives(l: Line, s: string) {
    LineFits(l) && LineToks(l) == Lex(s, 0)
  }

  /** The parser accepts exactly the lines that the grammar derives, with their meaning. */
  lemma Decides(s: string, c: Cmd)
    ensures ParseCmd(s) == Ok(c, |s|) <==> exists l :: Derives(l, s) && LineMeans(l) == c
  {
    hide Lex, TLine, ParseLine, LineToks, LineMeans, LineFits;
    LineSame(s, 0);
    var r := ParseLine(s, 0);
    if r.Ok? { LexHead(s, r.pos); }
    if ParseCmd(s) == Ok(c, |s|) {
      var l := LineSound(Lex(s, 0));
      assert LineToks(l) + [] == LineToks(l);
      assert Derives(l, s);
    }
    forall l | Derives(l, s) ensures ParseCmd(s) == Ok(LineMeans(l), |s|) {
      LineComplete(l, []);
      assert LineToks(l) + [] == LineToks(l);
    }
  }

  /** No line has two meanings. */
  lemma Unambiguous(s: string, l: Line, m: Line)
    requires Derives(l, s) && Derives(m, s)
    ensures LineMeans(l) == LineMeans(m)
  {
    hide Lex, LineToks, LineMeans, LineFits, ParseCmd;
    Decides(s, LineMeans(l));
    Decides(s, LineMeans(m));
  }
}
