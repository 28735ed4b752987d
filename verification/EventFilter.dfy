/**
 The event-type filter, which the service implements twice: `fnmatch` for live
 delivery and a translation to SQL `LIKE` for catch-up. Both matchers are written
 out as they search, and the two filters are compared on every event type.
 */
module EventFilter {
  import opened Options

  // ---------------------------------------------------------------- fnmatch

  /** One unit of a compiled glob. A class keeps the text between its brackets. */
  datatype Token = Star | AnyChar | Literal(c: char) | Class(members: string)

  /** Class members are single characters and `lo-hi` ranges; an inverted range is empty. */
  predicate InRanges(members: string, c: char) {
    if members == "" then false
    else if |members| >= 3 && members[1] == '-' then
      members[0] <= c <= members[2] || InRanges(members[3..], c)
    else c == members[0] || InRanges(members[1..], c)
  }

  predicate InClass(members: string, c: char) {
    if members != "" && members[0] == '!' then !InRanges(members[1..], c) else InRanges(members, c)
  }

  predicate Accepts(t: Token, c: char) {
    match t
    case Star => false
    case AnyChar => true
    case Literal(d) => c == d
    case Class(members) => InClass(members, c)
  }

  function IndexOf(p: string, c: char, start: nat): (k: nat)
    requires start <= |p|
    ensures start <= k <= |p|
    ensures k < |p| ==> p[k] == c
    decreases |p| - start
  {
    if start == |p| || p[start] == c then start else IndexOf(p, c, start + 1)
  }

  /** Where the class opened by p[0] ends, or |p| when nothing closes it. A `]` directly
      after `[` or `[!` is a member. */
  function ClassEnd(p: string): (k: nat)
    requires p != "" && p[0] == '['
    ensures 1 <= k <= |p|
    ensures k < |p| ==> p[k] == ']'
  {
    var j := if 1 < |p| && p[1] == '!' then 2 else 1;
    var i := if j < |p| && p[j] == ']' then j + 1 else j;
    IndexOf(p, ']', i)
  }

  function GlobTokens(p: string): seq<Token> {
    if p == "" then []
    else if p[0] == '*' then [Star] + GlobTokens(p[1..])
    else if p[0] == '?' then [AnyChar] + GlobTokens(p[1..])
    else if p[0] == '[' && ClassEnd(p) < |p| then
      [Class(p[1..ClassEnd(p)])] + GlobTokens(p[ClassEnd(p) + 1..])
    else [Literal(p[0])] + GlobTokens(p[1..])
  }

  /** Backtracking match of compiled tokens against a whole text. */
  predicate Matches(ts: seq<Token>, s: string)
    decreases |ts| + |s|
  {
    if ts == [] then s == ""
    else if ts[0].Star? then Matches(ts[1..], s) || (s != "" && Matches(ts, s[1..]))
    else s != "" && Accepts(ts[0], s[0]) && Matches(ts[1..], s[1..])
  }

  predicate FnMatch(eventType: string, pattern: string) {
    Matches(GlobTokens(pattern), eventType)
  }

  /** Whether the pattern holds a bracket expression that something closes. */
  predicate HasClass(p: string) {
    p != "" && ((p[0] == '[' && ClassEnd(p) < |p|) || HasClass(p[1..]))
  }

  // ------------------------------------------------------------------- LIKE

  /** PostgreSQL's matcher over the pattern text; a backslash makes the next character plain.
      A pattern that ends in a lone backslash is an error there and matches nothing here. */
  predicate LikeMatches(q: string, s: string)
    decreases |q| + |s|
  {
    if q == "" then s == ""
    else if q[0] == '%' then LikeMatches(q[1..], s) || (s != "" && LikeMatches(q, s[1..]))
    else if q[0] == '_' then s != "" && LikeMatches(q[1..], s[1..])
    else if q[0] == '\\' then |q| >= 2 && s != "" && s[0] == q[1] && LikeMatches(q[2..], s[1..])
    else s != "" && s[0] == q[0] && LikeMatches(q[1..], s[1..])
  }

  /** Whether every backslash of the pattern has a character to escape. */
  predicate LikeValid(q: string) {
    if q == "" then true
    else if q[0] == '\\' then |q| >= 2 && LikeValid(q[2..])
    else LikeValid(q[1..])
  }

  // ------------------------------------------------------------ translation

  /** `str.replace` of one character by a string, over the whole text. */
  function Replace(s: string, c: char, out: string): string {
    if s == "" then "" else (if s[0] == c then out else [s[0]]) + Replace(s[1..], c, out)
  }

  /** The four successive replaces of the catch-up query. */
  function Translate(pattern: string): string {
    Replace(Replace(Replace(Replace(pattern, '%', "\\%"), '_', "\\_"), '*', "%"), '?', "_")
  }

  function Image(c: char): string {
    match c
    case '%' => "\\%"
    case '_' => "\\_"
    case '*' => "%"
    case '?' => "_"
    case _ => [c]
  }

  function PerCharacter(p: string): string {
    if p == "" then "" else Image(p[0]) + PerCharacter(p[1..])
  }

  lemma {:induction false} ReplaceAppend(a: string, b: string, c: char, out: string)
    ensures Replace(a + b, c, out) == Replace(a, c, out) + Replace(b, c, out)
  {
    if a == "" {
      assert a + b == b;
    } else {
      assert (a + b)[1..] == a[1..] + b;
      ReplaceAppend(a[1..], b, c, out);
    }
  }

  lemma TranslateAppend(a: string, b: string)
    ensures Translate(a + b) == Translate(a) + Translate(b)
  {
    ReplaceAppend(a, b, '%', "\\%");
    var a1, b1 := Replace(a, '%', "\\%"), Replace(b, '%', "\\%");
    ReplaceAppend(a1, b1, '_', "\\_");
    var a2, b2 := Replace(a1, '_', "\\_"), Replace(b1, '_', "\\_");
    ReplaceAppend(a2, b2, '*', "%");
    ReplaceAppend(Replace(a2, '*', "%"), Replace(b2, '*', "%"), '?', "_");
  }

  lemma ReplaceOne(s: string, c: char, out: string)
    requires |s| == 1
    ensures Replace(s, c, out) == if s[0] == c then out else s
  {
    assert s[1..] == "";
  }

  lemma ReplaceTwo(s: string, c: char, out: string)
    requires |s| == 2 && s[0] != c && s[1] != c
    ensures Replace(s, c, out) == s
  {
    assert s == [s[0]] + [s[1]];
    ReplaceAppend([s[0]], [s[1]], c, out);
    ReplaceOne([s[0]], c, out);
    ReplaceOne([s[1]], c, out);
  }

  lemma TranslateOne(c: char)
    ensures Translate([c]) == Image(c)
  {
    ReplaceOne([c], '%', "\\%");
    var s1 := Replace([c], '%', "\\%");
    if c == '%' {
      ReplaceTwo(s1, '_', "\\_");
      ReplaceTwo(s1, '*', "%");
      ReplaceTwo(s1, '?', "_");
    } else {
      ReplaceOne(s1, '_', "\\_");
      var s2 := Replace(s1, '_', "\\_");
      if c == '_' {
        ReplaceTwo(s2, '*', "%");
        ReplaceTwo(s2, '?', "_");
      } else {
        ReplaceOne(s2, '*', "%");
        ReplaceOne(Replace(s2, '*', "%"), '?', "_");
      }
    }
  }

  /** No replace disturbs what an earlier one produced: together they rewrite each
      character by itself. */
  lemma {:induction false} TranslateIsPerCharacter(p: string)
    ensures Translate(p) == PerCharacter(p)
  {
    if p != "" {
      assert p == [p[0]] + p[1..];
      TranslateAppend([p[0]], p[1..]);
      TranslateOne(p[0]);
      TranslateIsPerCharacter(p[1..]);
    }
  }

  // ------------------------------------------------ the two matchers agree

  /** The units a LIKE pattern consists of. */
  function LikeTokens(q: string): seq<Token>
    requires LikeValid(q)
  {
    if q == "" then []
    else if q[0] == '%' then [Star] + LikeTokens(q[1..])
    else if q[0] == '_' then [AnyChar] + LikeTokens(q[1..])
    else if q[0] == '\\' then [Literal(q[1])] + LikeTokens(q[2..])
    else [Literal(q[0])] + LikeTokens(q[1..])
  }

  lemma {:induction false} LikeMatchesItsTokens(q: string, s: string)
    requires LikeValid(q)
    ensures LikeMatches(q, s) == Matches(LikeTokens(q), s)
    decreases |q| + |s|
  {
    if q != "" {
      if q[0] == '%' {
        LikeMatchesItsTokens(q[1..], s);
        if s != "" { LikeMatchesItsTokens(q, s[1..]); }
      } else if s != "" {
        LikeMatchesItsTokens(if q[0] == '\\' then q[2..] else q[1..], s[1..]);
      }
    }
  }

  lemma {:induction false} PlainPatternsShareTokens(p: string)
    requires '\\' !in p && !HasClass(p)
    ensures LikeValid(PerCharacter(p)) && LikeTokens(PerCharacter(p)) == GlobTokens(p)
  {
    if p != "" {
      PlainPatternsShareTokens(p[1..]);
      assert p[0] in p;
      var rest := PerCharacter(p[1..]);
      var q := PerCharacter(p);
      assert q == Image(p[0]) + rest;
      if p[0] == '%' || p[0] == '_' {
        assert q[0] == '\\' && q[1] == p[0] && q[2..] == rest;
      } else {
        assert q[1..] == rest;
      }
    }
  }

  // ------------------------------------- the shortest texts a pattern matches

  function NoStars(ts: seq<Token>): seq<Token> {
    if ts == [] then [] else (if ts[0].Star? then [] else [ts[0]]) + NoStars(ts[1..])
  }

  ghost predicate Fits(r: seq<Token>, s: string) {
    |s| == |r| && forall i :: 0 <= i < |r| ==> Accepts(r[i], s[i])
  }

  lemma {:induction false} Shortest(ts: seq<Token>, s: string) returns (v: string)
    requires Matches(ts, s)
    ensures Fits(NoStars(ts), v)
    ensures |v| <= |s| && (|v| == |s| ==> v == s)
    decreases |ts| + |s|
  {
    if ts == [] {
      v := "";
    } else if ts[0].Star? {
      if Matches(ts[1..], s) { v := Shortest(ts[1..], s); } else { v := Shortest(ts, s[1..]); }
    } else {
      var w := Shortest(ts[1..], s[1..]);
      v := [s[0]] + w;
    }
  }

  lemma {:induction false} FittingTextsMatch(ts: seq<Token>, s: string)
    requires Fits(NoStars(ts), s)
    ensures Matches(ts, s)
  {
    if ts != [] {
      var r := NoStars(ts[1..]);
      if ts[0].Star? {
        FittingTextsMatch(ts[1..], s);
      } else {
        assert NoStars(ts) == [ts[0]] + r;
        assert Fits(r, s[1..]) by {
          forall i | 0 <= i < |r| ensures Accepts(r[i], s[1..][i]) { assert NoStars(ts)[i + 1] == r[i]; }
        }
        assert Accepts(ts[0], s[0]);
        FittingTextsMatch(ts[1..], s[1..]);
      }
    }
  }

  ghost predicate SameLanguage(a: seq<Token>, b: seq<Token>) {
    forall s :: Matches(a, s) == Matches(b, s)
  }

  ghost predicate SameAt(a: seq<Token>, b: seq<Token>, i: nat)
    requires i < |a| && i < |b|
  {
    forall c :: Accepts(a[i], c) == Accepts(b[i], c)
  }

  /** Same language, same shortest texts: star-free forms agree position by position. */
  lemma SameLanguageSameShape(a: seq<Token>, b: seq<Token>, w: string)
    requires SameLanguage(a, b) && Fits(NoStars(b), w)
    ensures |NoStars(a)| == |NoStars(b)|
    ensures forall i :: 0 <= i < |NoStars(a)| ==> SameAt(NoStars(a), NoStars(b), i)
  {
    var ra, rb := NoStars(a), NoStars(b);
    FittingTextsMatch(b, w);
    var v := Shortest(a, w);
    FittingTextsMatch(a, v);
    var u := Shortest(b, v);
    assert |ra| == |rb| && Fits(rb, v);
    forall i | 0 <= i < |ra| ensures SameAt(ra, rb, i) {
      forall c ensures Accepts(ra[i], c) == Accepts(rb[i], c) {
        OnePositionChanged(a, b, v, i, c);
        OnePositionChanged(b, a, v, i, c);
      }
    }
  }

  lemma OnePositionChanged(a: seq<Token>, b: seq<Token>, v: string, i: nat, c: char)
    requires SameLanguage(a, b) && Fits(NoStars(a), v) && Fits(NoStars(b), v) && i < |v|
    ensures Accepts(NoStars(a)[i], c) ==> Accepts(NoStars(b)[i], c)
  {
    if Accepts(NoStars(a)[i], c) {
      var x := v[i := c];
      FittingTextsMatch(a, x);
      assert Matches(b, x);
      var y := Shortest(b, x);
    }
  }

  // --------------------------------------- weights tell unequal shapes apart

  /** The token stands for exactly one character. */
  ghost predicate Denotes(t: Token, c: char) {
    forall d :: Accepts(t, d) == (d == c)
  }

  ghost function TokenWeight(t: Token, f: char -> nat): nat {
    if exists c :: Denotes(t, c) then var c :| Denotes(t, c); f(c) else 0
  }

  ghost function Weight(r: seq<Token>, f: char -> nat): nat {
    if r == [] then 0 else TokenWeight(r[0], f) + Weight(r[1..], f)
  }

  lemma SameTokenSameWeight(t: Token, u: Token, f: char -> nat)
    requires forall c :: Accepts(t, c) == Accepts(u, c)
    ensures TokenWeight(t, f) == TokenWeight(u, f)
  {
    if c :| Denotes(t, c) { assert Denotes(u, c); OnlyOne(t, c, f); OnlyOne(u, c, f); }
    else if c :| Denotes(u, c) { assert Denotes(t, c); }
  }

  lemma OnlyOne(t: Token, c: char, f: char -> nat)
    requires Denotes(t, c)
    ensures TokenWeight(t, f) == f(c)
  {
    forall d | Denotes(t, d) ensures d == c { assert Accepts(t, d); }
  }

  lemma {:induction false} SameShapeSameWeight(a: seq<Token>, b: seq<Token>, f: char -> nat)
    requires |a| == |b| && forall i :: 0 <= i < |a| ==> SameAt(a, b, i)
    ensures Weight(a, f) == Weight(b, f)
  {
    if a != [] {
      assert SameAt(a, b, 0);
      SameTokenSameWeight(a[0], b[0], f);
      forall i | 0 <= i < |a[1..]| ensures SameAt(a[1..], b[1..], i) { assert SameAt(a, b, i + 1); }
      SameShapeSameWeight(a[1..], b[1..], f);
    }
  }

  lemma LiteralWeight(c: char, f: char -> nat)
    ensures TokenWeight(Literal(c), f) == f(c)
  {
    assert Denotes(Literal(c), c);
    OnlyOne(Literal(c), c, f);
  }

  lemma AnyCharWeight(f: char -> nat)
    ensures TokenWeight(AnyChar, f) == 0
  {
    forall c ensures !Denotes(AnyChar, c) {
      var d := if c == 'a' then 'b' else 'a';
      assert Accepts(AnyChar, d);
    }
  }

  lemma PrependWeight(t: Token, r: seq<Token>, f: char -> nat)
    ensures Weight(NoStars([t] + r), f) == (if t.Star? then 0 else TokenWeight(t, f)) + Weight(NoStars(r), f)
  {
    assert ([t] + r)[1..] == r;
    if t.Star? {
      assert NoStars([t] + r) == NoStars(r);
    } else {
      assert NoStars([t] + r) == [t] + NoStars(r);
      assert ([t] + NoStars(r))[1..] == NoStars(r);
    }
  }

  lemma TotalOfPair(p: string, f: char -> nat)
    requires |p| == 2
    ensures Total(p, f) == f(p[0]) + f(p[1])
  {
    assert p[1..][1..] == "";
    assert Total(p[1..], f) == f(p[1]) + Total("", f);
  }

  function Total(p: string, f: char -> nat): nat {
    if p == "" then 0 else f(p[0]) + Total(p[1..], f)
  }

  lemma {:induction false} TotalSplit(p: string, k: nat, f: char -> nat)
    requires k <= |p|
    ensures Total(p, f) == Total(p[..k], f) + Total(p[k..], f)
  {
    if k > 0 {
      TotalSplit(p[1..], k - 1, f);
      assert p[..k][1..] == p[1..][..k - 1] && p[1..][k - 1..] == p[k..];
    } else {
      assert p[..0] == "" && p[0..] == p;
    }
  }

  lemma {:induction false} TotalAppend(a: string, b: string, f: char -> nat)
    ensures Total(a + b, f) == Total(a, f) + Total(b, f)
  {
    if a == "" {
      assert a + b == b;
    } else {
      assert (a + b)[1..] == a[1..] + b;
      TotalAppend(a[1..], b, f);
    }
  }

  function Bracket(c: char): nat { if c == '[' || c == ']' then 1 else 0 }

  /** A class spends two brackets and can stand for at most one character. */
  lemma {:induction false} GlobBrackets(p: string)
    ensures Weight(NoStars(GlobTokens(p)), Bracket) <= Total(p, Bracket)
    ensures HasClass(p) ==> Weight(NoStars(GlobTokens(p)), Bracket) < Total(p, Bracket)
    decreases |p|
  {
    if p != "" {
      if p[0] == '[' && ClassEnd(p) < |p| {
        var k := ClassEnd(p);
        var t := Class(p[1..k]);
        GlobBrackets(p[k + 1..]);
        assert GlobTokens(p) == [t] + GlobTokens(p[k + 1..]);
        TotalSplit(p, k, Bracket);
        assert p[k..][0] == ']' && p[k..][1..] == p[k + 1..];
        assert p[..k][0] == '[';
        PrependWeight(t, GlobTokens(p[k + 1..]), Bracket);
      } else {
        GlobBrackets(p[1..]);
        assert GlobTokens(p) == [GlobTokens(p)[0]] + GlobTokens(p[1..]);
        PrependWeight(GlobTokens(p)[0], GlobTokens(p[1..]), Bracket);
        LiteralWeight(p[0], Bracket);
        AnyCharWeight(Bracket);
      }
    }
  }

  /** What follows the first unit of a LIKE pattern. */
  function AfterUnit(q: string): string
    requires LikeValid(q) && q != ""
  {
    if q[0] == '\\' then q[2..] else q[1..]
  }

  /** The first unit weighs as much as its text. */
  lemma UnitBrackets(q: string)
    requires LikeValid(q) && q != ""
    ensures LikeValid(AfterUnit(q))
    ensures Weight(NoStars(LikeTokens(q)), Bracket) - Weight(NoStars(LikeTokens(AfterUnit(q))), Bracket)
            == Total(q, Bracket) - Total(AfterUnit(q), Bracket)
  {
    var t, rest := LikeTokens(q)[0], AfterUnit(q);
    assert LikeTokens(q) == [t] + LikeTokens(rest);
    PrependWeight(t, LikeTokens(rest), Bracket);
    AnyCharWeight(Bracket);
    if q[0] == '\\' {
      LiteralWeight(q[1], Bracket);
      assert q[1..][1..] == rest;
      assert Total(q[1..], Bracket) == Bracket(q[1]) + Total(rest, Bracket);
    } else {
      LiteralWeight(q[0], Bracket);
    }
  }

  lemma {:induction false} LikeBrackets(q: string)
    requires LikeValid(q)
    ensures Weight(NoStars(LikeTokens(q)), Bracket) == Total(q, Bracket)
    decreases |q|
  {
    if q != "" {
      UnitBrackets(q);
      LikeBrackets(AfterUnit(q));
    }
  }

  lemma {:induction false} ImagesKeepBrackets(p: string)
    ensures Total(PerCharacter(p), Bracket) == Total(p, Bracket)
  {
    if p != "" {
      ImagesKeepBrackets(p[1..]);
      TotalAppend(Image(p[0]), PerCharacter(p[1..]), Bracket);
      ImageKeepsBrackets(p[0]);
    }
  }

  lemma ImageKeepsBrackets(c: char)
    ensures Total(Image(c), Bracket) == Bracket(c)
  {
    var i := Image(c);
    if |i| == 2 { TotalOfPair(i, Bracket); } else { assert i[1..] == ""; }
  }

  /** Backslash counts twice, the two LIKE wildcards once. */
  function Escape(c: char): nat { if c == '\\' then 2 else if c == '%' || c == '_' then 1 else 0 }

  function GlobToken(c: char): Token {
    if c == '*' then Star else if c == '?' then AnyChar else Literal(c)
  }

  lemma GlobWithoutClass(p: string)
    requires p != "" && !HasClass(p)
    ensures GlobTokens(p) == [GlobToken(p[0])] + GlobTokens(p[1..])
  {
  }

  lemma EscapeOfGlobToken(c: char)
    ensures (if GlobToken(c).Star? then 0 else TokenWeight(GlobToken(c), Escape)) == Escape(c)
  {
    LiteralWeight(c, Escape);
    AnyCharWeight(Escape);
  }

  lemma {:induction false} GlobEscapes(p: string)
    requires !HasClass(p)
    ensures Weight(NoStars(GlobTokens(p)), Escape) == Total(p, Escape)
  {
    if p != "" {
      GlobEscapes(p[1..]);
      GlobWithoutClass(p);
      PrependWeight(GlobToken(p[0]), GlobTokens(p[1..]), Escape);
      EscapeOfGlobToken(p[0]);
    }
  }

  /** Under LIKE every backslash is used up by the character it escapes. */
  lemma {:induction false} LikeEscapes(p: string)
    requires LikeValid(PerCharacter(p))
    ensures Weight(NoStars(LikeTokens(PerCharacter(p))), Escape) <= Total(p, Escape)
    ensures '\\' in p ==> Weight(NoStars(LikeTokens(PerCharacter(p))), Escape) < Total(p, Escape)
    decreases |p|
  {
    if p != "" {
      AnyCharWeight(Escape);
      var q, c := PerCharacter(p), p[0];
      assert q == Image(c) + PerCharacter(p[1..]);
      LiteralWeight(c, Escape);
      if c == '\\' {
        LikeEscapesAtBackslash(p);
      } else if c == '%' || c == '_' {
        assert q[0] == '\\' && q[1] == c && q[2..] == PerCharacter(p[1..]);
        assert LikeTokens(q) == [Literal(c)] + LikeTokens(q[2..]);
        LikeEscapes(p[1..]);
        PrependWeight(Literal(c), LikeTokens(q[2..]), Escape);
      } else {
        assert q[1..] == PerCharacter(p[1..]);
        assert LikeTokens(q) == [LikeTokens(q)[0]] + LikeTokens(q[1..]);
        LikeEscapes(p[1..]);
        PrependWeight(LikeTokens(q)[0], LikeTokens(q[1..]), Escape);
      }
    }
  }

  lemma {:induction false} LikeEscapesAtBackslash(p: string)
    requires LikeValid(PerCharacter(p)) && p != "" && p[0] == '\\'
    ensures Weight(NoStars(LikeTokens(PerCharacter(p))), Escape) < Total(p, Escape)
    decreases |p|, 0
  {
    var q := PerCharacter(p);
    assert q == "\\" + PerCharacter(p[1..]);
    assert |p| >= 2;
    var d, rest := p[1], PerCharacter(p[2..]);
    assert p[1..][1..] == p[2..];
    assert q == "\\" + (Image(d) + rest);
    assert Total(p, Escape) == 2 + (Escape(d) + Total(p[2..], Escape));
    AnyCharWeight(Escape);
    LiteralWeight(q[1], Escape);
    if d == '%' || d == '_' {
      assert q[1] == '\\' && q[2] == d && q[3..] == rest;
      assert q[2..][0] == d && q[2..][1..] == rest;
      LikeEscapes(p[2..]);
      var t := if d == '%' then Star else AnyChar;
      assert LikeTokens(q[2..]) == [t] + LikeTokens(rest);
      PrependWeight(t, LikeTokens(rest), Escape);
      PrependWeight(Literal('\\'), LikeTokens(q[2..]), Escape);
    } else {
      assert q[2..] == rest;
      LikeEscapes(p[2..]);
      PrependWeight(Literal(q[1]), LikeTokens(rest), Escape);
    }
  }

  lemma {:induction false} LikeHasAText(q: string) returns (w: string)
    requires LikeValid(q)
    ensures Fits(NoStars(LikeTokens(q)), w)
    decreases |q|
  {
    if q == "" {
      w := "";
    } else {
      var rest := if q[0] == '\\' then q[2..] else q[1..];
      var v := LikeHasAText(rest);
      var t := LikeTokens(q)[0];
      assert LikeTokens(q) == [t] + LikeTokens(rest);
      NoStarsPrepend(t, LikeTokens(rest));
      if q[0] == '%' {
        w := v;
      } else {
        w := [if q[0] == '\\' then q[1] else q[0]] + v;
        FitsPrepend(t, NoStars(LikeTokens(rest)), w[0], v);
      }
    }
  }

  lemma NoStarsPrepend(t: Token, r: seq<Token>)
    ensures NoStars([t] + r) == if t.Star? then NoStars(r) else [t] + NoStars(r)
  {
    assert ([t] + r)[1..] == r;
  }

  lemma FitsPrepend(t: Token, ts: seq<Token>, c: char, v: string)
    requires Fits(ts, v) && Accepts(t, c)
    ensures Fits([t] + ts, [c] + v)
  {
  }

  // ---------------------------------------------------------- what globs are for

  lemma {:induction false} StarMatchesAll(s: string)
    ensures Matches([Star], s)
  {
    if s != "" { StarMatchesAll(s[1..]); } else { assert Matches([], ""); }
  }

  predicate PlainText(p: string) {
    '*' !in p && '?' !in p && '[' !in p
  }

  /** The usual subscription: a plain text followed by a star takes what begins with the text. */
  lemma {:induction false} PrefixPattern(p: string, s: string)
    requires PlainText(p)
    ensures FnMatch(s, p + "*") <==> |p| <= |s| && s[..|p|] == p
  {
    if p == "" {
      assert p + "*" == "*" && "*"[1..] == "";
      assert GlobTokens("*") == [Star];
      StarMatchesAll(s);
    } else {
      assert p[0] in p && p == [p[0]] + p[1..];
      assert (p + "*")[1..] == p[1..] + "*";
      if s != "" {
        PrefixPattern(p[1..], s[1..]);
        if |p| <= |s| { assert s[..|p|] == [s[0]] + s[1..][..|p| - 1]; }
      }
    }
  }

  /** A plain text takes itself and nothing else. */
  lemma {:induction false} PlainPattern(p: string, s: string)
    requires PlainText(p)
    ensures FnMatch(s, p) <==> s == p
  {
    if p != "" {
      assert p[0] in p && p == [p[0]] + p[1..];
      if s != "" {
        PlainPattern(p[1..], s[1..]);
        assert s == [s[0]] + s[1..];
      }
    }
  }

  /** A question mark takes one character, whichever it is. */
  lemma QuestionMark(s: string)
    ensures FnMatch(s, "?") <==> |s| == 1
  {
    assert "?"[1..] == "";
    assert GlobTokens("?") == [AnyChar];
    assert [AnyChar][1..] == [];
    if s != "" { assert Matches([], s[1..]) <==> s[1..] == ""; }
  }

  predicate PlainMembers(members: string) {
    members != "" && '-' !in members && ']' !in members && members[0] != '!'
  }

  lemma {:induction false} ListedMembers(members: string, c: char)
    requires '-' !in members
    ensures InRanges(members, c) <==> c in members
  {
    if members != "" {
      assert members == [members[0]] + members[1..];
      if |members| >= 3 { assert members[1] in members; }
      ListedMembers(members[1..], c);
    }
  }

  lemma {:induction false} NextBracket(p: string, start: nat, k: nat)
    requires start <= k < |p| && p[k] == ']' && forall i :: start <= i < k ==> p[i] != ']'
    ensures IndexOf(p, ']', start) == k
    decreases k - start
  {
    if start < k { NextBracket(p, start + 1, k); }
  }

  /** A bracket expression takes one character of those listed. */
  lemma BracketExpression(members: string, c: char)
    requires PlainMembers(members)
    ensures FnMatch([c], "[" + members + "]") <==> c in members
  {
    ClassPattern(members, c);
    ListedMembers(members, c);
  }

  /** After an exclamation mark, one of the others. */
  lemma NegatedBracketExpression(members: string, c: char)
    requires PlainMembers(members)
    ensures FnMatch([c], "[" + ("!" + members) + "]") <==> c !in members
  {
    ListedMembers(members, c);
    var negated := "!" + members;
    assert ']' !in negated;
    ClassPattern(negated, c);
    assert negated[1..] == members;
  }

  /** A closing bracket in the first place is one of those listed. */
  lemma BracketAsMember(members: string, c: char)
    requires PlainMembers(members)
    ensures FnMatch([c], "[" + ("]" + members) + "]") <==> c == ']' || c in members
  {
    var listed := "]" + members;
    var p := "[" + listed + "]";
    forall i | 2 <= i < |p| - 1 ensures p[i] != ']' { assert p[i] == members[i - 2] && members[i - 2] in members; }
    NextBracket(p, 2, |p| - 1);
    assert p[1] == ']' && ClassEnd(p) == |p| - 1;
    OneClass(p, listed, c);
    assert '-' !in listed;
    ListedMembers(listed, c);
  }

  lemma OneClass(p: string, members: string, c: char)
    requires p != "" && p[0] == '[' && ClassEnd(p) == |p| - 1 && p[1..|p| - 1] == members
    ensures FnMatch([c], p) <==> InClass(members, c)
  {
    assert p[|p|..] == "";
    assert GlobTokens(p) == [Class(members)];
    assert [c][1..] == "" && [Class(members)][1..] == [];
    assert Matches([], "");
  }

  /** And a range one between its ends. */
  lemma BracketRange(low: char, high: char, c: char)
    requires low != '!' && low != ']' && high != ']'
    ensures FnMatch([c], "[" + [low, '-', high] + "]") <==> low <= c <= high
  {
    ClassPattern([low, '-', high], c);
    assert [low, '-', high][3..] == "";
    assert !InRanges("", c);
  }

  lemma ClassPattern(members: string, c: char)
    requires members != "" && members != "!" && ']' !in members
    ensures FnMatch([c], "[" + members + "]") <==> InClass(members, c)
  {
    var p := "[" + members + "]";
    forall i | 1 <= i < |p| - 1 ensures p[i] != ']' { assert p[i] == members[i - 1] && members[i - 1] in members; }
    NextBracket(p, if p[1] == '!' then 2 else 1, |p| - 1);
    assert ClassEnd(p) == |p| - 1;
    OneClass(p, members, c);
  }

  // ----------------------------------------------------------- main results

  /** Live delivery: no pattern lets everything through. */
  predicate LiveAccepts(pattern: Option<string>, eventType: string) {
    pattern.Some? ==> FnMatch(eventType, pattern.value)
  }

  /** Catch-up: an absent or empty pattern adds no condition to the query. */
  predicate CatchupAccepts(pattern: Option<string>, eventType: string) {
    pattern.Some? && pattern.value != "" ==> LikeMatches(Translate(pattern.value), eventType)
  }

  /** The query does not stop with PostgreSQL's lone-escape error. */
  predicate CatchupRuns(pattern: Option<string>) {
    pattern.Some? ==> LikeValid(Translate(pattern.value))
  }

  ghost predicate FiltersAgree(pattern: Option<string>) {
    CatchupRuns(pattern) && forall t :: LiveAccepts(pattern, t) == CatchupAccepts(pattern, t)
  }

  predicate Portable(pattern: Option<string>) {
    pattern.Some? ==> pattern.value != "" && '\\' !in pattern.value && !HasClass(pattern.value)
  }

  lemma NoBracketNoClass(p: string)
    requires '[' !in p
    ensures !HasClass(p)
  {
    if p != "" { assert p[0] in p; NoBracketNoClass(p[1..]); }
  }

  lemma DisagreementIsVisible(p: string)
    requires '\\' in p || HasClass(p)
    requires LikeValid(PerCharacter(p))
    ensures !SameLanguage(GlobTokens(p), LikeTokens(PerCharacter(p)))
  {
    var g, q := GlobTokens(p), PerCharacter(p);
    if SameLanguage(g, LikeTokens(q)) {
      var w := LikeHasAText(q);
      SameLanguageSameShape(g, LikeTokens(q), w);
      SameShapeSameWeight(NoStars(g), NoStars(LikeTokens(q)), Bracket);
      SameShapeSameWeight(NoStars(g), NoStars(LikeTokens(q)), Escape);
      GlobBrackets(p);
      LikeBrackets(q);
      ImagesKeepBrackets(p);
      if !HasClass(p) { GlobEscapes(p); LikeEscapes(p); }
      assert false;
    }
  }

  // ------------------------------------- no single text holds all disagreement

  /** Every text LIKE accepts has at least the pattern's brackets. */
  lemma {:induction false} LikeKeepsBrackets(q: string, s: string)
    requires LikeMatches(q, s)
    ensures Total(s, Bracket) >= Total(q, Bracket)
    decreases |q| + |s|
  {
    if q != "" {
      if q[0] == '%' {
        if LikeMatches(q[1..], s) { LikeKeepsBrackets(q[1..], s); } else { LikeKeepsBrackets(q, s[1..]); }
      } else if q[0] == '\\' {
        LikeKeepsBrackets(q[2..], s[1..]);
        assert q[1..][1..] == q[2..];
        assert Total(q[1..], Bracket) == Bracket(q[1]) + Total(q[2..], Bracket);
      } else {
        LikeKeepsBrackets(q[1..], s[1..]);
      }
    }
  }

  /** Every text a class-free glob accepts has a backslash if the glob has one. */
  lemma {:induction false} GlobKeepsBackslash(p: string, s: string)
    requires !HasClass(p) && '\\' in p && FnMatch(s, p)
    ensures '\\' in s
    decreases |p| + |s|
  {
    GlobWithoutClass(p);
    var rest := GlobTokens(p[1..]);
    assert p == [p[0]] + p[1..];
    if p[0] == '*' {
      if Matches(rest, s) { GlobKeepsBackslash(p[1..], s); } else { GlobKeepsBackslash(p, s[1..]); }
    } else if p[0] != '\\' {
      GlobKeepsBackslash(p[1..], s[1..]);
    }
  }

  lemma {:induction false} ClassHasTwoBrackets(p: string)
    requires HasClass(p)
    ensures Total(p, Bracket) >= 2
  {
    if p[0] == '[' && ClassEnd(p) < |p| {
      var k := ClassEnd(p);
      TotalSplit(p, k, Bracket);
      assert p[..k][0] == '[' && p[k..][0] == ']';
    } else {
      ClassHasTwoBrackets(p[1..]);
    }
  }

  lemma {:induction false} SomeMatch(p: string) returns (t: string)
    requires !HasClass(p)
    ensures FnMatch(t, p)
  {
    if p == "" {
      t := "";
    } else {
      GlobWithoutClass(p);
      var rest := SomeMatch(p[1..]);
      if p[0] == '*' {
        t := rest;
      } else {
        t := [p[0]] + rest;
        assert t[1..] == rest;
      }
    }
  }

  predicate Classless(ts: seq<Token>) {
    forall i :: 0 <= i < |ts| ==> !ts[i].Class?
  }

  lemma {:induction false} LikeIsClassless(q: string)
    requires LikeValid(q)
    ensures Classless(LikeTokens(q))
    decreases |q|
  {
    if q != "" {
      var rest := if q[0] == '\\' then q[2..] else q[1..];
      LikeIsClassless(rest);
      assert LikeTokens(q) == [LikeTokens(q)[0]] + LikeTokens(rest);
    }
  }

  /** Another accepted text that differs in one character at most, or the tokens accept only
      the one text. */
  lemma {:induction false} Variation(ts: seq<Token>, s: string) returns (t: string)
    requires Matches(ts, s)
    ensures Matches(ts, t) && (t == s ==> forall x :: Matches(ts, x) ==> x == s)
    ensures Total(t, Bracket) <= Total(s, Bracket) + 1
    ensures Classless(ts) && '\\' !in s ==> '\\' !in t
    decreases |ts|, 1
  {
    if ts == [] {
      t := s;
    } else if ts[0].Star? {
      t := "!" + s;
      assert t[1..] == s;
    } else if ts[0].AnyChar? {
      t := [if s[0] == '!' then '#' else '!'] + s[1..];
      assert t[1..] == s[1..];
    } else if c :| c != s[0] && Accepts(ts[0], c) {
      t := [c] + s[1..];
      assert t[1..] == s[1..];
    } else {
      t := VariationOfRest(ts, s);
    }
  }

  lemma {:induction false} VariationOfRest(ts: seq<Token>, s: string) returns (t: string)
    requires Matches(ts, s) && ts != [] && !ts[0].Star?
    requires forall c :: Accepts(ts[0], c) ==> c == s[0]
    ensures Matches(ts, t) && (t == s ==> forall x :: Matches(ts, x) ==> x == s)
    ensures Total(t, Bracket) <= Total(s, Bracket) + 1
    ensures Classless(ts) && '\\' !in s ==> '\\' !in t
    decreases |ts|, 0
  {
    var rest := Variation(ts[1..], s[1..]);
    t := [s[0]] + rest;
    assert t[1..] == rest && s == [s[0]] + s[1..];
    if t == s {
      assert rest == s[1..];
      forall x | Matches(ts, x) ensures x == s { assert Matches(ts[1..], x[1..]) && x == [x[0]] + x[1..]; }
    }
  }

  /** A class or a backslash leaves more than one text in dispute, so some text other than a
      given one without brackets and backslashes is. */
  lemma DisagreementBeyond(p: string, h: string) returns (t: string)
    requires '\\' in p || HasClass(p)
    requires LikeValid(PerCharacter(p)) && Total(h, Bracket) == 0 && '\\' !in h
    ensures t != h && Matches(GlobTokens(p), t) != Matches(LikeTokens(PerCharacter(p)), t)
  {
    var g, q := GlobTokens(p), PerCharacter(p);
    var l := LikeTokens(q);
    DisagreementIsVisible(p);
    t :| Matches(g, t) != Matches(l, t);
    if t == h {
      if HasClass(p) { t := BeyondWithClass(p, h); } else { t := BeyondWithBackslash(p, h); }
    }
  }

  lemma BeyondWithClass(p: string, h: string) returns (t: string)
    requires HasClass(p) && LikeValid(PerCharacter(p)) && Total(h, Bracket) == 0
    requires Matches(GlobTokens(p), h) != Matches(LikeTokens(PerCharacter(p)), h)
    ensures t != h && Matches(GlobTokens(p), t) != Matches(LikeTokens(PerCharacter(p)), t)
  {
    var g, q := GlobTokens(p), PerCharacter(p);
    ClassHasTwoBrackets(p);
    ImagesKeepBrackets(p);
    forall s | Matches(LikeTokens(q), s) ensures Total(s, Bracket) >= 2 {
      LikeMatchesItsTokens(q, s);
      LikeKeepsBrackets(q, s);
    }
    t := Variation(g, h);
    if t == h {
      t := LikeHasAText(q);
      FittingTextsMatch(LikeTokens(q), t);
    }
  }

  lemma BeyondWithBackslash(p: string, h: string) returns (t: string)
    requires !HasClass(p) && '\\' in p && LikeValid(PerCharacter(p)) && '\\' !in h
    requires Matches(GlobTokens(p), h) != Matches(LikeTokens(PerCharacter(p)), h)
    ensures t != h && Matches(GlobTokens(p), t) != Matches(LikeTokens(PerCharacter(p)), t)
  {
    var g, l := GlobTokens(p), LikeTokens(PerCharacter(p));
    forall s | Matches(g, s) ensures '\\' in s { GlobKeepsBackslash(p, s); }
    LikeIsClassless(PerCharacter(p));
    t := Variation(l, h);
    if t == h { t := SomeMatch(p); }
  }

  /** Live delivery and catch-up filter alike on every event type exactly when there is
      no pattern, or a non-empty one without a backslash and without a closed bracket
      expression. */
  lemma FilterTranslationExact(pattern: Option<string>)
    ensures FiltersAgree(pattern) <==> Portable(pattern)
  {
    if pattern.Some? {
      var p := pattern.value;
      TranslateIsPerCharacter(p);
      if p == "" {
        assert LiveAccepts(pattern, "a") != CatchupAccepts(pattern, "a");
      } else {
        if LikeValid(Translate(p)) {
          forall t ensures CatchupAccepts(pattern, t) == Matches(LikeTokens(Translate(p)), t) {
            LikeMatchesItsTokens(Translate(p), t);
          }
        }
        if Portable(pattern) {
          PlainPatternsShareTokens(p);
        } else if CatchupRuns(pattern) {
          DisagreementIsVisible(p);
          var t :| Matches(GlobTokens(p), t) != Matches(LikeTokens(Translate(p)), t);
          assert LiveAccepts(pattern, t) != CatchupAccepts(pattern, t);
        }
      }
    }
  }

  /** The promised case: a pattern without `[` and without backslash means the same twice. */
  lemma PlainPatternsAgree(p: string, eventType: string)
    requires p != "" && '[' !in p && '\\' !in p
    ensures FnMatch(eventType, p) <==> LikeMatches(Translate(p), eventType)
  {
    NoBracketNoClass(p);
    FilterTranslationExact(Some(p));
    assert LiveAccepts(Some(p), eventType) == CatchupAccepts(Some(p), eventType);
  }
}
