/**
 * The tokenizer: strips spaces, then repeatedly removes the longest prefix
 * matched by the first of eight token classes, in a fixed order.
 */
module Tokenizer {
  import opened Wrappers
  import opened Strings
  import opened Coordinates

  /** The token classes, in the order they are tried (their ids are 0 to 7). */
  datatype TokenKind = Operator | Function | Range | Cell | Literal | Open | Close | Separator {
    function Id(): nat {
      match this
      case Operator => 0 case Function => 1 case Range => 2 case Cell => 3
      case Literal => 4 case Open => 5 case Close => 6 case Separator => 7
    }
  }

  const Patterns: seq<TokenKind> := [Operator, Function, Range, Cell, Literal, Open, Close, Separator]

  lemma PatternOrder()
    ensures forall i :: 0 <= i < |Patterns| ==> Patterns[i].Id() == i
  {
  }

  datatype Token = Token(text: string, kind: TokenKind)

  const FunctionNames: seq<string> := ["SUMA", "MIN", "MAX", "PROMEDIO"]

  /** End of the run of upper-case letters starting at `i`. */
  function UpperRunEnd(s: string, i: nat): (j: nat)
    requires i <= |s|
    ensures i <= j <= |s|
    ensures forall k :: i <= k < j ==> IsUpper(s[k])
    ensures j < |s| ==> !IsUpper(s[j])
    decreases |s| - i
  {
    if i == |s| || !IsUpper(s[i]) then i else UpperRunEnd(s, i + 1)
  }

  /** `[A-Z]+[1-9][0-9]*` matched at position `i`: the end of the match. */
  function CellEnd(s: string, i: nat): (r: Option<nat>)
    requires i <= |s|
    ensures r.Some? ==> i < r.value <= |s|
  {
    var j := UpperRunEnd(s, i);
    if j == i || j == |s| || !('1' <= s[j] <= '9') then None
    else Some(DigitRunEnd(s, j + 1))
  }

  function FunctionMatch(s: string, names: seq<string>): (r: Option<nat>)
    requires forall k :: 0 <= k < |names| ==> |names[k]| > 0
    ensures r.Some? ==> 0 < r.value <= |s|
  {
    if names == [] then None
    else if names[0] <= s then Some(|names[0]|)
    else FunctionMatch(s, names[1..])
  }

  /** Length of the prefix of `s` the regular expression of `kind` matches, if any. */
  function Match(kind: TokenKind, s: string): (r: Option<nat>)
    ensures r.Some? ==> 0 < r.value <= |s|
  {
    match kind
    case Operator => if |s| > 0 && s[0] in "+-*/^" then Some(1) else None
    case Function => FunctionMatch(s, FunctionNames)
    case Range =>
      (match CellEnd(s, 0)
       case Some(e) => if e < |s| && s[e] == ':' then CellEnd(s, e + 1) else None
       case None => None)
    case Cell => CellEnd(s, 0)
    case Literal => if |s| > 0 && IsDigit(s[0]) then Some(DigitRunEnd(s, 0)) else None
    case Open => if |s| > 0 && s[0] == '(' then Some(1) else None
    case Close => if |s| > 0 && s[0] == ')' then Some(1) else None
    case Separator => if |s| > 0 && s[0] == ';' then Some(1) else None
  }

  /** The first class, from position `from` of the list on, that matches `s`. */
  function FirstMatchFrom(s: string, from: nat): (r: Option<(TokenKind, nat)>)
    requires from <= |Patterns|
    ensures r.Some? ==> Match(r.value.0, s) == Some(r.value.1)
    decreases |Patterns| - from
  {
    if from == |Patterns| then None
    else
      var m := Match(Patterns[from], s);
      if m.Some? then Some((Patterns[from], m.value)) else FirstMatchFrom(s, from + 1)
  }

  /**
   * The class the tokenizer picks for the text `s`: the first one in list
   * order whose pattern matches a prefix, with that prefix's length.
   */
  function FirstMatch(s: string): (r: Option<(TokenKind, nat)>)
    ensures r.Some? ==> 0 < r.value.1 <= |s|
  {
    FirstMatchFrom(s, 0)
  }

  /**
   * `FirstMatch` picks a class that matches, no class before it in the list
   * matches, and it fails only when no class matches at all.
   */
  lemma FirstMatchIsFirst(s: string)
    ensures FirstMatch(s).Some? ==> Match(FirstMatch(s).value.0, s) == Some(FirstMatch(s).value.1)
    ensures FirstMatch(s).Some? ==>
              forall j :: 0 <= j < FirstMatch(s).value.0.Id() ==> Match(Patterns[j], s).None?
    ensures FirstMatch(s).None? <==> forall k: TokenKind :: Match(k, s).None?
  {
    PatternOrder();
    AllKindsListed();
    FirstMatchFromIsFirst(s, 0);
  }

  lemma {:induction false} FirstMatchFromIsFirst(s: string, from: nat)
    requires from <= |Patterns|
    ensures FirstMatchFrom(s, from).Some? ==>
              from <= FirstMatchFrom(s, from).value.0.Id() < |Patterns|
              && forall j :: from <= j < FirstMatchFrom(s, from).value.0.Id() ==> Match(Patterns[j], s).None?
    ensures FirstMatchFrom(s, from).None? ==>
              forall j :: from <= j < |Patterns| ==> Match(Patterns[j], s).None?
    decreases |Patterns| - from
  {
    if from < |Patterns| {
      if Match(Patterns[from], s).None? {
        FirstMatchFromIsFirst(s, from + 1);
        FirstMatchSkip(s, from);
      } else {
        FirstMatchHit(s, from);
        PatternOrder();
      }
    }
  }

  lemma AllKindsListed()
    ensures forall k: TokenKind :: Patterns[k.Id()] == k
  {
    forall k: TokenKind ensures Patterns[k.Id()] == k {
      match k
      case Operator => case Function => case Range => case Cell =>
      case Literal => case Open => case Close => case Separator =>
    }
  }

  /** The texts of the tokens, concatenated. */
  function Concat(tokens: seq<Token>): string
  {
    if tokens == [] then [] else tokens[0].text + Concat(tokens[1..])
  }

  lemma ConcatCons(t: Token, ts: seq<Token>)
    ensures Concat([t] + ts) == t.text + Concat(ts)
  {
    assert ([t] + ts)[1..] == ts;
  }

  /** Tokens read from the front, and the text left when no class matched (empty on success). */
  datatype Scan = Scan(tokens: seq<Token>, rest: string)

  /** How the class and length of the next token are chosen from the text left. */
  type Picker = string -> Option<(TokenKind, nat)>

  /** `pick` cuts a non-empty prefix of the text whenever it picks a class. */
  ghost predicate Cuts(pick: Picker)
  {
    forall x :: pick(x).Some? ==> 0 < pick(x).value.1 <= |x|
  }

  lemma FirstMatchCuts()
    ensures Cuts(FirstMatch)
  {
  }

  /** The tokenizer's loop on space-free text. */
  function Lex(s: string): Scan
  {
    FirstMatchCuts();
    ScanWith(FirstMatch, s)
  }

  /** The same loop with the choice of each token left to `pick`. */
  function ScanWith(pick: Picker, s: string): Scan
    requires Cuts(pick)
    decreases |s|
  {
    if s == [] then Scan([], [])
    else
      var m := pick(s);
      if m.None? then Scan([], s)
      else
        var kind, n := m.value.0, m.value.1;
        var tail := ScanWith(pick, s[n..]);
        Scan([Token(s[..n], kind)] + tail.tokens, tail.rest)
  }

  /** The token texts followed by the text left unread give back the input. */
  lemma {:induction false} ScanRebuilds(pick: Picker, s: string)
    requires Cuts(pick)
    ensures Concat(ScanWith(pick, s).tokens) + ScanWith(pick, s).rest == s
    decreases |s|
  {
    if s != [] && pick(s).Some? {
      var kind, n := pick(s).value.0, pick(s).value.1;
      ScanRebuilds(pick, s[n..]);
      ConcatFront(s, n, kind, ScanWith(pick, s[n..]));
    }
  }

  /** A token cut from the front, followed by a scan of the rest, puts the text back together. */
  lemma ConcatFront(s: string, n: nat, kind: TokenKind, tail: Scan)
    requires n <= |s| && Concat(tail.tokens) + tail.rest == s[n..]
    ensures Concat([Token(s[..n], kind)] + tail.tokens) + tail.rest == s
  {
    ConcatCons(Token(s[..n], kind), tail.tokens);
    assert s[..n] + s[n..] == s;
  }

  /** The scan stops early only at text where no class matches. */
  lemma {:induction false} LexStopsWhenStuck(s: string)
    ensures Lex(s).rest != [] ==> FirstMatch(Lex(s).rest).None?
    decreases |s|
  {
    if s != [] && FirstMatch(s).Some? {
      LexStopsWhenStuck(s[FirstMatch(s).value.1..]);
    }
  }

  /** Where token `i` of a scan of `s` starts. */
  function Offset(tokens: seq<Token>, i: nat): nat
    requires i <= |tokens|
  {
    |Concat(tokens[..i])|
  }

  /**
   * Every emitted token is the prefix, at its own position, that the first
   * matching class in list order matches there.
   */
  lemma {:induction false} LexPicksFirstMatch(s: string, i: nat)
    requires i < |Lex(s).tokens|
    ensures PicksAt(s, Lex(s).tokens, i)
    decreases |s|
  {
    var ts := Lex(s).tokens;
    var m := FirstMatch(s);
    var n := m.value.1;
    var t := Token(s[..n], m.value.0);
    var tail := Lex(s[n..]).tokens;
    LexStep(s);
    if i == 0 {
      assert ts[..0] == [];
    } else {
      LexPicksFirstMatch(s[n..], i - 1);
      PicksShift(FirstMatch, s, t, tail, i);
    }
  }

  /** Token `i` of `ts` is the first match at its offset in `s`. */
  predicate PicksAt(s: string, ts: seq<Token>, i: nat)
    requires i < |ts|
  {
    PickedAt(FirstMatch, s, Offset(ts, i), ts[i])
  }

  /** `t` is the prefix `pick` chooses at position `off` of `s`. */
  predicate PickedAt(pick: Picker, s: string, off: nat, t: Token)
  {
    off < |s|
    && pick(s[off..]) == Some((t.kind, |t.text|))
    && off + |t.text| <= |s|
    && t.text == s[off..off + |t.text|]
  }

  /** Token `i - 1` of the scan after `t` is token `i` of the scan that starts with `t`. */
  lemma PicksShift(pick: Picker, s: string, t: Token, tail: seq<Token>, i: nat)
    requires |t.text| <= |s| && 0 < i <= |tail|
    requires PickedAt(pick, s[|t.text|..], Offset(tail, i - 1), tail[i - 1])
    ensures PickedAt(pick, s, Offset([t] + tail, i), ([t] + tail)[i])
  {
    var n, off, u := |t.text|, Offset(tail, i - 1), tail[i - 1];
    PickedShift(pick, s, n, off, u);
    assert Offset([t] + tail, i) == n + off by {
      OffsetCons(t, tail, i);
    }
    assert ([t] + tail)[i] == u;
  }

  /** A token picked at `off` after a drop of `n` is picked at `n + off`. */
  lemma PickedShift(pick: Picker, s: string, n: nat, off: nat, t: Token)
    requires n <= |s| && PickedAt(pick, s[n..], off, t)
    ensures PickedAt(pick, s, n + off, t)
  {
    var u, len := s[n..], |t.text|;
    assert off < |u| && off + len <= |u| && |u| == |s| - n;
    assert u[off..] == s[n + off..];
    assert u[off..off + len] == s[n + off..n + off + len];
  }

  /** One step of the scan: the first token, then the scan of what follows it. */
  lemma LexStep(s: string)
    requires s != [] && FirstMatch(s).Some?
    ensures Lex(s).tokens
            == [Token(s[..FirstMatch(s).value.1], FirstMatch(s).value.0)] + Lex(s[FirstMatch(s).value.1..]).tokens
    ensures Lex(s).rest == Lex(s[FirstMatch(s).value.1..]).rest
  {
  }

  lemma OffsetCons(t: Token, ts: seq<Token>, i: nat)
    requires 0 < i <= |ts| + 1
    ensures Offset([t] + ts, i) == |t.text| + Offset(ts, i - 1)
  {
    assert ([t] + ts)[..i] == [t] + ts[..i - 1];
    ConcatCons(t, ts[..i - 1]);
  }

  /** On success the token texts put back together give the (space-free) text. */
  lemma LexConcat(s: string)
    requires Lex(s).rest == []
    ensures Concat(Lex(s).tokens) == s
  {
    FirstMatchCuts();
    ScanRebuilds(FirstMatch, s);
    assert Concat(Lex(s).tokens) + [] == Concat(Lex(s).tokens);
  }

  /** The example of the tokenizer's documentation. */
  const ExampleText: string := "MAX(A3:B3)+4*C5"

  /** Its tokens: MAX ( A3:B3 ) + 4 * C5. */
  const ExampleTokens: seq<Token> :=
    [Token("MAX", Function), Token("(", Open), Token("A3:B3", Range), Token(")", Close),
     Token("+", Operator), Token("4", Literal), Token("*", Operator), Token("C5", Cell)]

  /** Where each token of the example starts, then where the text ends. */
  const ExampleCuts: seq<nat> := [0, 3, 4, 9, 10, 11, 12, 13, 15]

  /** One step of the scan: the first token, given the scan of what follows it. */
  lemma ScanCons(pick: Picker, s: string, kind: TokenKind, n: nat, tail: Scan)
    requires Cuts(pick) && 0 < n <= |s| && pick(s) == Some((kind, n)) && ScanWith(pick, s[n..]) == tail
    ensures ScanWith(pick, s) == Scan([Token(s[..n], kind)] + tail.tokens, tail.rest)
  {
  }

  /** Token `k` of the example is the first match where it starts. */
  lemma ExampleCut(k: nat)
    requires k < 8
    ensures CutOk(FirstMatch, ExampleText, ExampleCuts, ExampleTokens, k)
  {
    if k == 0 {
      ExampleCut0();
    } else if k == 1 {
      ExampleCut1();
    } else if k == 2 {
      ExampleCut2();
    } else if k == 3 {
      ExampleCut3();
    } else if k == 4 {
      ExampleCut4();
    } else if k == 5 {
      ExampleCut5();
    } else if k == 6 {
      ExampleCut6();
    } else {
      ExampleCut7();
    }
  }

  lemma ExampleCut0()
    ensures CutOk(FirstMatch, ExampleText, ExampleCuts, ExampleTokens, 0)
  {
    assert ExampleCuts[0] == 0 && ExampleCuts[1] == 3 && ExampleTokens[0] == Token("MAX", Function);
    assert ExampleText[0..3] == "MAX";
    FirstMatchAtMax();
  }

  lemma ExampleCut1()
    ensures CutOk(FirstMatch, ExampleText, ExampleCuts, ExampleTokens, 1)
  {
    assert ExampleCuts[1] == 3 && ExampleCuts[2] == 4 && ExampleTokens[1] == Token("(", Open);
    assert ExampleText[3..] == "(A3:B3)+4*C5" && ExampleText[3..4] == "(";
    FirstMatchAtOpen();
  }

  lemma ExampleCut2()
    ensures CutOk(FirstMatch, ExampleText, ExampleCuts, ExampleTokens, 2)
  {
    assert ExampleCuts[2] == 4 && ExampleCuts[3] == 9 && ExampleTokens[2] == Token("A3:B3", Range);
    assert ExampleText[4..] == "A3:B3)+4*C5" && ExampleText[4..9] == "A3:B3";
    FirstMatchAtRange();
  }

  lemma ExampleCut3()
    ensures CutOk(FirstMatch, ExampleText, ExampleCuts, ExampleTokens, 3)
  {
    assert ExampleCuts[3] == 9 && ExampleCuts[4] == 10 && ExampleTokens[3] == Token(")", Close);
    assert ExampleText[9..] == ")+4*C5" && ExampleText[9..10] == ")";
    FirstMatchAtClose();
  }

  lemma ExampleCut4()
    ensures CutOk(FirstMatch, ExampleText, ExampleCuts, ExampleTokens, 4)
  {
    assert ExampleCuts[4] == 10 && ExampleCuts[5] == 11 && ExampleTokens[4] == Token("+", Operator);
    assert ExampleText[10..] == "+4*C5" && ExampleText[10..11] == "+";
    FirstMatchAtPlus();
  }

  lemma ExampleCut5()
    ensures CutOk(FirstMatch, ExampleText, ExampleCuts, ExampleTokens, 5)
  {
    assert ExampleCuts[5] == 11 && ExampleCuts[6] == 12 && ExampleTokens[5] == Token("4", Literal);
    assert ExampleText[11..] == "4*C5" && ExampleText[11..12] == "4";
    FirstMatchAtFour();
  }

  lemma ExampleCut6()
    ensures CutOk(FirstMatch, ExampleText, ExampleCuts, ExampleTokens, 6)
  {
    assert ExampleCuts[6] == 12 && ExampleCuts[7] == 13 && ExampleTokens[6] == Token("*", Operator);
    assert ExampleText[12..] == "*C5" && ExampleText[12..13] == "*";
    FirstMatchAtTimes();
  }

  lemma ExampleCut7()
    ensures CutOk(FirstMatch, ExampleText, ExampleCuts, ExampleTokens, 7)
  {
    assert ExampleCuts[7] == 13 && ExampleCuts[8] == 15 && ExampleTokens[7] == Token("C5", Cell);
    assert ExampleText[13..] == "C5" && ExampleText[13..15] == "C5";
    FirstMatchAtC5();
  }

  /** Token `j` is what `pick` chooses at `cuts[j]`, and it ends at `cuts[j + 1]`. */
  predicate CutOk(pick: Picker, s: string, cuts: seq<nat>, toks: seq<Token>, j: nat)
    requires |cuts| == |toks| + 1 && j < |toks|
  {
    cuts[j] < cuts[j + 1] <= |s|
    && pick(s[cuts[j]..]) == Some((toks[j].kind, cuts[j + 1] - cuts[j]))
    && s[cuts[j]..cuts[j + 1]] == toks[j].text
  }

  /**
   * A scan is determined by its cut points: when every token `j` is the one
   * chosen at `cuts[j]` and ends at `cuts[j + 1]`, the scan from `cuts[k]` on
   * gives exactly the tokens from `k` on.
   */
  lemma {:induction false} ScanByCuts(pick: Picker, s: string, cuts: seq<nat>, toks: seq<Token>, k: nat)
    requires Cuts(pick)
    requires |cuts| == |toks| + 1 && k <= |toks| && cuts[|toks|] == |s| && cuts[k] <= |s|
    requires forall j: nat :: j < |toks| ==> CutOk(pick, s, cuts, toks, j)
    ensures ScanWith(pick, s[cuts[k]..]) == Scan(toks[k..], [])
    decreases |toks| - k
  {
    if k == |toks| {
      assert s[cuts[k]..] == [];
    } else {
      assert ScanWith(pick, s[cuts[k]..]) == Scan([toks[k]] + toks[k + 1..], []) by {
        assert CutOk(pick, s, cuts, toks, k);
        ScanByCuts(pick, s, cuts, toks, k + 1);
        ScanFromCut(pick, s, cuts[k], cuts[k + 1], toks[k], toks[k + 1..]);
      }
      assert toks[k..] == [toks[k]] + toks[k + 1..];
    }
  }

  /** The token cut between `a` and `b`, followed by the scan from `b`, is the scan from `a`. */
  lemma ScanFromCut(pick: Picker, s: string, a: nat, b: nat, t: Token, rest: seq<Token>)
    requires Cuts(pick)
    requires a < b <= |s| && pick(s[a..]) == Some((t.kind, b - a)) && s[a..b] == t.text
    requires ScanWith(pick, s[b..]) == Scan(rest, [])
    ensures ScanWith(pick, s[a..]) == Scan([t] + rest, [])
  {
    var u, n := s[a..], b - a;
    assert u[n..] == s[b..] && u[..n] == t.text;
    ScanCons(pick, u, t.kind, n, Scan(rest, []));
  }

  /** The tokenizer's example: `MAX(A3:B3)+4*C5` gives MAX ( A3:B3 ) + 4 * C5. */
  lemma TokenizeExample()
    ensures Lex(ExampleText) == Scan(ExampleTokens, [])
  {
    forall j: nat | j < 8 ensures CutOk(FirstMatch, ExampleText, ExampleCuts, ExampleTokens, j) {
      ExampleCut(j);
    }
    FirstMatchCuts();
    ScanByCuts(FirstMatch, ExampleText, ExampleCuts, ExampleTokens, 0);
    assert ExampleText[0..] == ExampleText && ExampleTokens[0..] == ExampleTokens;
  }

  lemma FirstMatchAtMax()
    ensures FirstMatch("MAX(A3:B3)+4*C5") == Some((Function, 3))
  {
  }

  lemma FirstMatchAtOpen()
    ensures FirstMatch("(A3:B3)+4*C5") == Some((Open, 1))
  {
  }

  lemma FirstMatchAtRange()
    ensures FirstMatch("A3:B3)+4*C5") == Some((Range, 5))
  {
    var s := "A3:B3)+4*C5";
    assert Match(Operator, s).None? && Match(Function, s).None?;
    assert s[0] == 'A' && s[1] == '3' && s[2] == ':' && s[3] == 'B' && s[4] == '3' && s[5] == ')';
    assert UpperRunEnd(s, 0) == 1 && DigitRunEnd(s, 2) == 2;
    assert UpperRunEnd(s, 3) == 4 && DigitRunEnd(s, 5) == 5;
    assert CellEnd(s, 0) == Some(2) && CellEnd(s, 3) == Some(5);
    FirstMatchSkip(s, 0);
    FirstMatchSkip(s, 1);
    FirstMatchHit(s, 2);
  }

  /** A class that does not match passes the choice to the next one. */
  lemma FirstMatchSkip(s: string, from: nat)
    requires from < |Patterns| && Match(Patterns[from], s).None?
    ensures FirstMatchFrom(s, from) == FirstMatchFrom(s, from + 1)
  {
  }

  /** A class that matches is chosen. */
  lemma FirstMatchHit(s: string, from: nat)
    requires from < |Patterns| && Match(Patterns[from], s).Some?
    ensures FirstMatchFrom(s, from) == Some((Patterns[from], Match(Patterns[from], s).value))
  {
  }

  lemma FirstMatchAtClose()
    ensures FirstMatch(")+4*C5") == Some((Close, 1))
  {
  }

  lemma FirstMatchAtPlus()
    ensures FirstMatch("+4*C5") == Some((Operator, 1))
  {
  }

  lemma FirstMatchAtFour()
    ensures FirstMatch("4*C5") == Some((Literal, 1))
  {
  }

  lemma FirstMatchAtTimes()
    ensures FirstMatch("*C5") == Some((Operator, 1))
  {
  }

  lemma FirstMatchAtC5()
    ensures FirstMatch("C5") == Some((Cell, 2))
  {
  }

  /** Cutting the next token moves it from the scan still to do to the tokens emitted. */
  lemma LexAdvance(whole: Scan, emitted: seq<Token>, text: string, kind: TokenKind, n: nat)
    requires text != [] && FirstMatch(text) == Some((kind, n))
    requires whole == Scan(emitted + Lex(text).tokens, Lex(text).rest)
    ensures n <= |text|
    ensures whole == Scan((emitted + [Token(text[..n], kind)]) + Lex(text[n..]).tokens, Lex(text[n..]).rest)
  {
    var t, tail := Token(text[..n], kind), Lex(text[n..]);
    FirstMatchCuts();
    ScanCons(FirstMatch, text, kind, n, tail);
    assert emitted + ([t] + tail.tokens) == (emitted + [t]) + tail.tokens;
  }

  /**
   * `Tokenizer`: a token list that every call to `tokenize` appends to.
   */
  class Tokenizer {
    var tokens: seq<Token>

    constructor()
      ensures tokens == []
    {
      tokens := [];
    }

    /** The inner `for` over the patterns: the first that matches, if any. */
    static method MatchFirstPattern(s: string) returns (m: Option<(TokenKind, nat)>)
      ensures m == FirstMatch(s)
    {
      var tokenId := 0;
      while tokenId < |Patterns|
        invariant 0 <= tokenId <= |Patterns|
        invariant FirstMatch(s) == FirstMatchFrom(s, tokenId)
      {
        var n := Match(Patterns[tokenId], s);
        if n.Some? {
          return Some((Patterns[tokenId], n.value));
        }
        tokenId := tokenId + 1;
      }
      return None;
    }

    /**
     * `tokenize`: spaces are removed, then tokens are cut from the front and
     * appended to `tokens` until the text is used up.  When no class
     * matches, the tokens found so far stay appended and the call fails.
     */
    method Tokenize(repr: string) returns (r: Result<seq<Token>>)
      modifies this
      ensures tokens == old(tokens) + Lex(RemoveSpaces(repr)).tokens
      ensures r.Ok? <==> Lex(RemoveSpaces(repr)).rest == []
      ensures r.Ok? ==> r.value == tokens
      ensures r.Err? ==> r.error == MalformedFormula
    {
      var text := RemoveSpaces(repr);
      ghost var emitted: seq<Token> := [];
      while text != []
        invariant tokens == old(tokens) + emitted
        invariant Lex(RemoveSpaces(repr)) == Scan(emitted + Lex(text).tokens, Lex(text).rest)
        decreases |text|
      {
        var m := MatchFirstPattern(text);
        if m.None? {
          return Err(MalformedFormula);
        }
        var (kind, n) := m.value;
        var tok := text[..n];
        LexAdvance(Lex(RemoveSpaces(repr)), emitted, text, kind, n);
        tokens := tokens + [Token(tok, kind)];
        emitted := emitted + [Token(tok, kind)];
        text := text[n..];
      }
      return Ok(tokens);
    }
  }
}
