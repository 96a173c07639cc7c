/**
 Characters and blanks of a command line, with user/sh.c's own character sets: which characters make
 words, and that a line means the same whatever blanks separate its words and end it.
 */
module ShellLines {
  import opened ShellSpec
  import opened ShellGrammar
  import RT = ShellRoundTrip

  const BLANKS := " \t\r\n\U{000B}"
  const SYMBOLS := "<|>&;()"

  // ---------------------------------------------------------------- characters

  lemma Characters(c: char)
    ensures IsSpace(c) <==> c in BLANKS
    ensures IsSymbol(c) <==> c in SYMBOLS
    ensures IsWordChar(c) <==> c !in BLANKS + SYMBOLS
  {
    assert BLANKS == [' ', '\t', '\r', '\n', '\U{000B}'];
    assert SYMBOLS == ['<', '|', '>', '&', ';', '(', ')'];
  }

  /** A proper word is any string of one or more other characters. */
  lemma ProperWord(w: string)
    ensures RT.Word(w) <==> |w| >= 1 && forall k :: 0 <= k < |w| ==> w[k] !in " \t\r\n\U{000B}<|>&;()"
  {
    assert BLANKS + SYMBOLS == " \t\r\n\U{000B}<|>&;()";
    forall k | 0 <= k < |w| ensures IsWordChar(w[k]) <==> w[k] !in " \t\r\n\U{000B}<|>&;()" { Characters(w[k]); }
  }

  /** Position `k` lies in a word among these tokens. */
  ghost predicate InWord(ts: seq<Tok>, k: nat) {
    exists n :: 0 <= n < |ts| && ts[n].Word? && ts[n].w.q <= k < ts[n].w.e
  }

  /**
   Exactly the characters that are neither blank nor symbol are in words: no word has another one, and
   each of them is in a word.
   */
  lemma {:induction false} WordsAre(s: string, i: nat, k: nat)
    requires i <= k < |s|
    ensures InWord(Lex(s, i), k) <==> s[k] !in " \t\r\n\U{000B}<|>&;()"
    decreases |s| - i
  {
    hide Lex, WordEnd;
    Characters(s[k]);
    assert BLANKS + SYMBOLS == " \t\r\n\U{000B}<|>&;()";
    var t, j, ts := GetToken(s, i), Skip(s, i), Lex(s, i);
    FirstToken(s, i);
    if j == |s| {
    } else if k < t.span.e {
      FirstWord(s, i, k);
      WordsAfter(s, t.next);
      if k < j {
        assert !InWord(ts, k);
      } else if t.kind == 'a' {
        assert InWord(ts, k) by { assert ts[0].w == t.span; }
      }
    } else if k < t.next {
      WordsAfter(s, t.next);
      assert ts[0].Word? ==> ts[0].w == t.span;
    } else {
      WordsAre(s, t.next, k);
      assert forall n :: 1 <= n < |ts| ==> ts[n] == Lex(s, t.next)[n - 1];
    }
  }

  /** The first token has no blank, and is a word exactly if none of it is a symbol. */
  lemma FirstWord(s: string, i: nat, k: nat)
    requires i <= k < |s| && k < GetToken(s, i).span.e
    ensures k < Skip(s, i) ==> IsSpace(s[k])
    ensures k >= Skip(s, i) && Skip(s, i) < |s| ==> (GetToken(s, i).kind == 'a' <==> IsWordChar(s[k]))
  {
  }

  lemma {:induction false} WordsAfter(s: string, i: nat)
    requires i <= |s|
    ensures forall n :: 0 <= n < |Lex(s, i)| && Lex(s, i)[n].Word? ==> i <= Lex(s, i)[n].w.q
    decreases |s| - i
  {
    var t := GetToken(s, i);
    if t.kind != '\0' { WordsAfter(s, t.next); }
  }

  // -------------------------------------------------------------------- blanks

  /** The same line but for which blank stands where there is one, and blanks after its end. */
  ghost predicate Blanked(s: string, t: string) {
    && |s| <= |t| && (forall k :: |s| <= k < |t| ==> t[k] in BLANKS)
    && (forall k :: 0 <= k < |s| ==> s[k] == t[k] || (s[k] in BLANKS && t[k] in BLANKS))
  }

  lemma {:induction false} SkipBlanked(s: string, t: string, i: nat)
    requires Blanked(s, t) && i <= |s|
    ensures if Skip(s, i) < |s| then Skip(t, i) == Skip(s, i) else Skip(t, i) == |t|
    decreases |s| - i
  {
    if i < |s| {
      Characters(s[i]);
      Characters(t[i]);
      if IsSpace(s[i]) { SkipBlanked(s, t, i + 1); }
    } else {
      SkipAll(t, i);
    }
  }

  lemma {:induction false} SkipAll(t: string, i: nat)
    requires i <= |t| && forall k :: i <= k < |t| ==> t[k] in BLANKS
    ensures Skip(t, i) == |t|
    decreases |t| - i
  {
    if i < |t| {
      Characters(t[i]);
      SkipAll(t, i + 1);
    }
  }

  lemma {:induction false} WordEndBlanked(s: string, t: string, i: nat)
    requires Blanked(s, t) && i <= |s|
    ensures WordEnd(t, i) == WordEnd(s, i)
    decreases |s| - i
  {
    if i < |t| { Characters(t[i]); }
    if i < |s| {
      Characters(s[i]);
      WordEndBlanked(s, t, i + 1);
    }
  }

  lemma TokenBlanked(s: string, t: string, i: nat)
    requires Blanked(s, t) && i <= |s| && Skip(s, i) < |s|
    ensures Skip(t, i) == Skip(s, i)
    ensures var x, y := GetToken(s, i), GetToken(t, i);
      y.kind == x.kind && y.span == x.span && x.next == Skip(s, x.span.e) && y.next == Skip(t, x.span.e)
  {
    hide Skip, WordEnd;
    SkipBlanked(s, t, i);
    var j := Skip(s, i);
    Characters(s[j]);
    Characters(t[j]);
    if j + 1 < |t| { Characters(t[j + 1]); }
    if j + 1 < |s| { Characters(s[j + 1]); }
    WordEndBlanked(s, t, j);
  }

  /** Both lines have the same tokens, in the same places. */
  lemma {:induction false} LexBlanked(s: string, t: string, i: nat)
    requires Blanked(s, t) && i <= |s|
    ensures Lex(t, i) == Lex(s, i)
    decreases |s| - i
  {
    hide Skip, GetToken, Blanked;
    SkipBlanked(s, t, i);
    FirstToken(s, i);
    FirstToken(t, i);
    if Skip(s, i) < |s| {
      TokenBlanked(s, t, i);
      var x := GetToken(s, i);
      NextBlanked(s, t, x.span.e);
      TokenMoves(s, i);
      LexBlanked(s, t, x.next);
    }
  }

  lemma {:induction false} NextBlanked(s: string, t: string, e: nat)
    requires Blanked(s, t) && e <= |s|
    ensures Lex(t, Skip(t, e)) == Lex(t, Skip(s, e))
  {
    SkipBlanked(s, t, e);
    if Skip(s, e) == |s| {
      SkipAll(t, |s|);
      LexSkip(t, |s|);
    }
  }

  /** A line is parsed by its tokens alone. */
  lemma SameTokens(s: string, t: string)
    requires Lex(s, 0) == Lex(t, 0)
    ensures ParseCmd(s).Ok? <==> ParseCmd(t).Ok?
    ensures ParseCmd(s).Ok? ==> ParseCmd(s).cmd == ParseCmd(t).cmd
  {
    hide Lex, TLine, ParseLine;
    LineSame(s, 0);
    LineSame(t, 0);
    var r, q := ParseLine(s, 0), ParseLine(t, 0);
    if r.Ok? { LexHead(s, r.pos); }
    if q.Ok? { LexHead(t, q.pos); }
  }

  /**
   Any blank can stand for any other, and any number of them can end the line: the command is the same,
   and so are the texts of its words. Every line that `getcmd` delivers ends in a newline.
   */
  lemma BlanksAlike(s: string, t: string)
    requires Blanked(s, t)
    ensures ParseCmd(s).Ok? <==> ParseCmd(t).Ok?
    ensures ParseCmd(s).Ok? ==> ParseCmd(s).cmd == ParseCmd(t).cmd
    ensures forall w: Span :: IsWord(s, w) ==> IsWord(t, w) && t[w.q..w.e] == s[w.q..w.e]
  {
    hide Lex, ParseCmd;
    LexBlanked(s, t, 0);
    SameTokens(s, t);
    forall w: Span | IsWord(s, w) ensures IsWord(t, w) && t[w.q..w.e] == s[w.q..w.e] {
      forall k | w.q <= k < w.e ensures t[k] == s[k] { Characters(s[k]); }
      if w.e < |t| {
        Characters(t[w.e]);
        if w.e < |s| { Characters(s[w.e]); }
      }
    }
  }

  /** A printed command, with the newline that ends its line, is parsed to itself. */
  lemma TypedLine(t: RT.Tree)
    requires RT.WellFormed(t)
    ensures var line := RT.Print(t) + "\n"; ParseCmd(line).Ok? && RT.Reads(line, ParseCmd(line).cmd, t)
  {
    hide ParseCmd, RT.Print, RT.Reads;
    var s := RT.Print(t);
    RT.RoundTrip(t);
    assert "\n"[0] in BLANKS by { Characters('\n'); }
    BlanksAlike(s, s + "\n");
    ReadsLonger(s, "\n", ParseCmd(s).cmd, t);
  }

  lemma {:induction false} ReadsLonger(s: string, more: string, c: Cmd, t: RT.Tree)
    requires RT.Reads(s, c, t)
    ensures RT.Reads(s + more, c, t)
    decreases t
  {
    match t
    case TExec(ws) =>
      forall k | 0 <= k < |ws| ensures RT.SpanIs(s + more, c.args[k], ws[k]) {
        assert (s + more)[c.args[k].q..c.args[k].e] == s[c.args[k].q..c.args[k].e];
      }
    case TRedir(u, f, m) =>
      assert (s + more)[c.file.q..c.file.e] == s[c.file.q..c.file.e];
      ReadsLonger(s, more, c.cmd, u);
    case TPipe(l, r) =>
      ReadsLonger(s, more, c.left, l);
      ReadsLonger(s, more, c.right, r);
    case TList(l, r) =>
      ReadsLonger(s, more, c.left, l);
      ReadsLonger(s, more, c.right, r);
    case TBack(u) => ReadsLonger(s, more, c.cmd, u);
  }
}
