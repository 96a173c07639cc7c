/**
 The regular-expression matcher of user/grep.c. C strings are sequences without their
 terminating NUL. The language of a pattern is defined by cutting a string into one part for
 each item of the pattern; the matcher is proved to decide exactly that.
 */
module Regex {

  /** An item of a pattern: one character, any number of them, or a `$` that ends the pattern. */
  datatype Item = One(c: char) | Star(c: char) | End

  function Items(re: string): seq<Item> {
    if re == "" then []
    else if |re| >= 2 && re[1] == '*' then [Star(re[0])] + Items(re[2..])
    else if re == "$" then [End]
    else [One(re[0])] + Items(re[1..])
  }

  predicate Fits(c: char, x: char) {
    c == '.' || c == x
  }

  /** The strings that an item stands for. */
  ghost predicate Accepts(it: Item, s: string) {
    match it
    case One(c) => |s| == 1 && Fits(c, s[0])
    case Star(c) => forall i :: 0 <= i < |s| ==> Fits(c, s[i])
    case End => s == ""
  }

  ghost function Concat(parts: seq<string>): string {
    if parts == [] then "" else parts[0] + Concat(parts[1..])
  }

  /** Do these parts of a string fit the items one by one? */
  ghost predicate Cuts(items: seq<Item>, parts: seq<string>, s: string) {
    && |parts| == |items| && Concat(parts) == s
    && forall i :: 0 <= i < |items| ==> Accepts(items[i], parts[i])
  }

  ghost predicate Lang(items: seq<Item>, s: string) {
    exists parts :: Cuts(items, parts, s)
  }

  ghost predicate AtEnd(items: seq<Item>) {
    exists i :: 0 <= i < |items| && items[i] == End
  }

  /** A prefix of the text of length `j` is in the language; with a final `$` it must be the whole text. */
  ghost predicate Prefix(items: seq<Item>, text: string, j: nat) {
    j <= |text| && Lang(items, text[..j]) && (AtEnd(items) ==> j == |text|)
  }

  ghost predicate Here(items: seq<Item>, text: string) {
    exists j :: 0 <= j <= |text| && Prefix(items, text, j)
  }

  /** Some substring matches, at the start of the text if the pattern begins with `^`. */
  ghost predicate Matches(re: string, text: string) {
    if re != "" && re[0] == '^' then Here(Items(re[1..]), text)
    else exists i :: 0 <= i <= |text| && HereAt(Items(re), text, i)
  }

  ghost predicate HereAt(items: seq<Item>, text: string, i: nat) {
    i <= |text| && Here(items, text[i..])
  }

  // ------------------------------------------------------------ taking items off

  /** A string is in the language if it begins with a part for the first item. */
  lemma LangCons(it: Item, rest: seq<Item>, s: string, k: nat)
    requires k <= |s| && Accepts(it, s[..k]) && Lang(rest, s[k..])
    ensures Lang([it] + rest, s)
  {
    var parts :| Cuts(rest, parts, s[k..]);
    var all := [s[..k]] + parts;
    assert all[1..] == parts && Concat(all) == s[..k] + s[k..] == s;
    assert Cuts([it] + rest, all, s);
  }

  lemma LangSplit(it: Item, rest: seq<Item>, s: string) returns (k: nat)
    requires Lang([it] + rest, s)
    ensures k <= |s| && Accepts(it, s[..k]) && Lang(rest, s[k..])
  {
    var items := [it] + rest;
    var parts :| Cuts(items, parts, s);
    k := |parts[0]|;
    assert s == parts[0] + Concat(parts[1..]);
    assert s[..k] == parts[0] && s[k..] == Concat(parts[1..]);
    assert Accepts(items[0], parts[0]);
    forall i | 0 <= i < |rest| ensures Accepts(rest[i], parts[1..][i]) { assert Accepts(items[i + 1], parts[i + 1]); }
    assert Cuts(rest, parts[1..], s[k..]);
  }

  lemma AtEndCons(it: Item, rest: seq<Item>)
    ensures AtEnd([it] + rest) <==> it == End || AtEnd(rest)
  {
    var items := [it] + rest;
    if AtEnd(rest) {
      var i :| 0 <= i < |rest| && rest[i] == End;
      assert items[i + 1] == End;
    }
    if it == End { assert items[0] == End; }
  }

  lemma HereCons(it: Item, rest: seq<Item>, text: string, k: nat)
    requires it != End && k <= |text| && Accepts(it, text[..k]) && Here(rest, text[k..])
    ensures Here([it] + rest, text)
  {
    var j :| 0 <= j <= |text[k..]| && Prefix(rest, text[k..], j);
    var s := text[..k + j];
    assert s[..k] == text[..k] && s[k..] == text[k..][..j];
    LangCons(it, rest, s, k);
    AtEndCons(it, rest);
    assert Prefix([it] + rest, text, k + j);
  }

  lemma HereSplit(it: Item, rest: seq<Item>, text: string) returns (k: nat)
    requires it != End && Here([it] + rest, text)
    ensures k <= |text| && Accepts(it, text[..k]) && Here(rest, text[k..])
  {
    var j :| 0 <= j <= |text| && Prefix([it] + rest, text, j);
    var s := text[..j];
    k := LangSplit(it, rest, s);
    assert s[..k] == text[..k] && s[k..] == text[k..][..j - k];
    AtEndCons(it, rest);
    assert Prefix(rest, text[k..], j - k);
  }

  lemma HereNone(text: string)
    ensures Here([], text)
  {
    assert Cuts([], [], text[..0]);
    assert Prefix([], text, 0);
  }

  lemma HereEnd(text: string)
    ensures Here([End], text) <==> text == ""
  {
    if text == "" {
      assert [""][1..] == [] && Concat([""]) == "" + Concat([]);
      assert Cuts([End], [""], text[..0]);
      assert Prefix([End], text, 0);
    }
    if Here([End], text) {
      var j :| 0 <= j <= |text| && Prefix([End], text, j);
      assert [End][0] == End && [End] + [] == [End];
      var k := LangSplit(End, [], text[..j]);
      var parts :| Cuts([], parts, text[..j][k..]);
      assert text[..j][k..] == "";
    }
  }

  lemma HereOne(c: char, rest: seq<Item>, text: string)
    ensures Here([One(c)] + rest, text) <==> text != "" && Fits(c, text[0]) && Here(rest, text[1..])
  {
    if Here([One(c)] + rest, text) {
      var k := HereSplit(One(c), rest, text);
    }
    if text != "" && Fits(c, text[0]) && Here(rest, text[1..]) {
      HereCons(One(c), rest, text, 1);
    }
  }

  /** Past the first character that does not fit, a star cannot reach. */
  lemma StarStops(c: char, rest: seq<Item>, text: string, k: nat)
    requires k <= |text| && (k == |text| || !Fits(c, text[k]))
    requires forall j :: 0 <= j <= k ==> !HereAt(rest, text, j)
    ensures !Here([Star(c)] + rest, text)
  {
    if Here([Star(c)] + rest, text) {
      var n := HereSplit(Star(c), rest, text);
      assert HereAt(rest, text, n);
    }
  }

  // ------------------------------------------------------------ what is written

  /** An item as it is written. */
  function Written(it: Item): string {
    match it
    case One(c) => [c]
    case Star(c) => [c] + "*"
    case End => "$"
  }

  function Print(items: seq<Item>): string {
    if items == [] then "" else Written(items[0]) + Print(items[1..])
  }

  /** A list of items that can be written: what would read as a star or an end is one. */
  ghost predicate Proper(items: seq<Item>) {
    && (forall i :: 0 <= i < |items| - 1 && items[i].One? ==> items[i + 1].End? || items[i + 1].c != '*')
    && (forall i :: 0 <= i < |items| - 1 ==> items[i] != End)
    && (items != [] ==> items[|items| - 1] != One('$'))
  }

  /** Every pattern is what its items write. */
  lemma {:induction false} PrintItems(re: string)
    ensures Print(Items(re)) == re && Proper(Items(re))
    ensures re != "" ==> Items(re) != [] && (Items(re)[0].End? ==> re == "$") && (!Items(re)[0].End? ==> Items(re)[0].c == re[0])
    decreases |re|
  {
    if re != "" {
      var items := Items(re);
      var n := if |re| >= 2 && re[1] == '*' then 2 else 1;
      PrintItems(re[n..]);
      if re != "$" || n == 2 {
        assert items == [items[0]] + Items(re[n..]) && items[1..] == Items(re[n..]);
        assert forall i :: 1 <= i < |items| ==> items[i] == Items(re[n..])[i - 1];
        assert Written(items[0]) == re[..n];
      } else {
        assert items == [End] && items[1..] == [];
      }
    }
  }

  /** Every proper list of items comes back from what it writes. */
  lemma {:induction false} ItemsPrint(items: seq<Item>)
    requires Proper(items)
    ensures Items(Print(items)) == items
    decreases |items|
  {
    if items != [] {
      var it, rest := items[0], items[1..];
      assert items == [it] + rest;
      assert forall i :: 0 <= i < |rest| ==> rest[i] == items[i + 1];
      ItemsPrint(rest);
      var re := Print(items);
      assert re[|Written(it)|..] == Print(rest);
      if rest != [] { assert Print(rest)[0] == Written(rest[0])[0] && (it.One? ==> rest[0].End? || rest[0].c != '*'); }
    }
  }

  /** A text without special characters. */
  predicate Plain(re: string) {
    forall k :: 0 <= k < |re| ==> re[k] !in ".*$^"
  }

  lemma {:induction false} PlainHere(re: string, text: string)
    requires Plain(re)
    ensures Here(Items(re), text) <==> re <= text
    ensures Here(Items(re + "$"), text) <==> re == text
    decreases |re|
  {
    if re == "" {
      HereNone(text);
      assert re + "$" == "$";
      HereEnd(text);
    } else {
      assert (re + "$")[1..] == re[1..] + "$";
      HereOne(re[0], Items(re[1..]), text);
      HereOne(re[0], Items(re[1..] + "$"), text);
      if text != "" { PlainHere(re[1..], text[1..]); }
      assert re[0] != '.' && (|re| > 1 ==> re[1] != '*');
      assert re == [re[0]] + re[1..] && (text != "" ==> text == [text[0]] + text[1..]);
    }
  }

  /** Plain text matches where it occurs: anywhere, at the start after `^`, at the end before `$`, or as a whole with both. */
  lemma PlainMatches(re: string, text: string)
    requires Plain(re)
    ensures Matches(re, text) <==> exists i :: 0 <= i <= |text| && re <= text[i..]
    ensures Matches("^" + re, text) <==> re <= text
    ensures Matches(re + "$", text) <==> |re| <= |text| && text[|text| - |re|..] == re
    ensures Matches("^" + re + "$", text) <==> text == re
  {
    hide Items, Here, Plain;
    PlainSomewhere(re, text);
    PlainHere(re, text);
    PlainHere("", text);
    assert ("^" + re)[1..] == re && ("^" + re + "$")[1..] == re + "$";
  }

  lemma NoCaret(re: string)
    requires Plain(re)
    ensures (re != "" ==> re[0] != '^') && (re + "$")[0] != '^' && Plain("")
  {
  }

  lemma PlainSomewhere(re: string, text: string)
    requires Plain(re)
    ensures Matches(re, text) <==> exists i :: 0 <= i <= |text| && re <= text[i..]
    ensures Matches(re + "$", text) <==> |re| <= |text| && text[|text| - |re|..] == re
    ensures Plain("")
  {
    hide Items, Here, Plain;
    NoCaret(re);
    forall i | 0 <= i <= |text|
      ensures HereAt(Items(re), text, i) <==> re <= text[i..]
      ensures HereAt(Items(re + "$"), text, i) <==> re == text[i..]
    {
      PlainHere(re, text[i..]);
    }
    if |re| <= |text| && text[|text| - |re|..] == re { assert HereAt(Items(re + "$"), text, |text| - |re|); }
    if exists i :: 0 <= i <= |text| && re <= text[i..] {
      var i :| 0 <= i <= |text| && re <= text[i..];
      assert HereAt(Items(re), text, i);
    }
  }

  /** A starred character matches any number of them, a starred `.` anything, and `.` any one character. */
  lemma StarMatches(c: char, text: string)
    ensures Matches("^" + [c] + "*$", text) <==> c == '.' || forall i :: 0 <= i < |text| ==> text[i] == c
    ensures Matches("^.$", text) <==> |text| == 1
  {
    var re := [c] + "*$";
    assert ("^" + [c] + "*$")[1..] == re && re[2..] == "$" && "^.$"[1..] == ".$" && ".$"[1..] == "$";
    assert Items("$") == [End] && Items(re) == [Star(c)] + [End] && Items(".$") == [One('.')] + [End];
    if Here(Items(re), text) {
      var k := HereSplit(Star(c), [End], text);
      HereEnd(text[k..]);
      assert text[..k] == text;
    }
    if c == '.' || forall i :: 0 <= i < |text| ==> text[i] == c {
      assert text[..|text|] == text;
      HereEnd(text[|text|..]);
      HereCons(Star(c), [End], text, |text|);
    }
    HereOne('.', [End], text);
    if text != "" { HereEnd(text[1..]); }
  }

  // ---------------------------------------------------------------- the matcher

  /** `matchhere`. */
  method MatchHere(re: string, text: string) returns (r: bool)
    ensures r <==> Here(Items(re), text)
    decreases |re|, 0
  {
    if re == "" {
      HereNone(text);
      return true;
    }
    if |re| >= 2 && re[1] == '*' {
      r := MatchStar(re[0], re[2..], text);
      return;
    }
    if re == "$" {
      HereEnd(text);
      return text == "";
    }
    HereOne(re[0], Items(re[1..]), text);
    if text != "" && (re[0] == '.' || re[0] == text[0]) {
      r := MatchHere(re[1..], text[1..]);
      return;
    }
    return false;
  }

  /** `matchstar`. */
  method MatchStar(c: char, re: string, text: string) returns (r: bool)
    ensures r <==> Here([Star(c)] + Items(re), text)
    decreases |re|, 1
  {
    var k := 0;
    while true
      invariant 0 <= k <= |text| && forall i :: 0 <= i < k ==> Fits(c, text[i])
      invariant forall j :: 0 <= j < k ==> !HereAt(Items(re), text, j)
      decreases |text| - k
    {
      r := MatchHere(re, text[k..]);
      if r {
        HereCons(Star(c), Items(re), text, k);
        return true;
      }
      if k == |text| || !(text[k] == c || c == '.') {
        StarStops(c, Items(re), text, k);
        return false;
      }
      assert !HereAt(Items(re), text, k);
      k := k + 1;
    }
  }

  /** `match`: true exactly if the pattern matches somewhere in the text. */
  method Match(re: string, text: string) returns (r: bool)
    ensures r <==> Matches(re, text)
  {
    if re != "" && re[0] == '^' {
      r := MatchHere(re[1..], text);
      return;
    }
    var k := 0;
    while true
      invariant 0 <= k <= |text| && forall i :: 0 <= i < k ==> !HereAt(Items(re), text, i)
      decreases |text| - k
    {
      r := MatchHere(re, text[k..]);
      if r {
        assert HereAt(Items(re), text, k);
        return true;
      }
      assert !HereAt(Items(re), text, k);
      if k == |text| {
        return false;
      }
      k := k + 1;
    }
  }
}
