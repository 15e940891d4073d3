/**
 The names a free-space worker gives to the files it claims, and the shell pattern with which a restart looks for
 them. The pattern is built from the file's own name without escaping it, so a name may match claims of other files
 and may miss its own.
 */
module CleanupNames {
  import opened Common

  type Name = string

  // ----- shell patterns -----

  datatype Token = One(c: char) | Any | Star | Class(negated: bool, members: string)

  function FindClose(p: string, j: nat): (r: Option<nat>)
    requires j <= |p|
    ensures r.Some? ==> j <= r.value < |p| && p[r.value] == ']'
    decreases |p| - j
  {
    if j == |p| then None else if p[j] == ']' then Some(j) else FindClose(p, j + 1)
  }

  /** Where a class that opens at position 0 closes; a bracket right after the opening is a member. */
  function ClassEnd(p: string): (r: Option<nat>)
    requires p != "" && p[0] == '['
    ensures r.Some? ==> 1 <= r.value < |p|
  {
    var j := if 1 < |p| && p[1] == '!' then 2 else 1;
    var k := if j < |p| && p[j] == ']' then j + 1 else j;
    FindClose(p, k)
  }

  function ClassOf(body: string): Token {
    if body != "" && body[0] == '!' then Class(true, body[1..]) else Class(false, body)
  }

  /** The token of a character that opens no class. */
  function TokenOf(c: char): Token {
    if c == '*' then Star else if c == '?' then Any else One(c)
  }

  predicate OpensClass(p: string)
    requires p != ""
  {
    p[0] == '[' && ClassEnd(p).Some?
  }

  function HeadSize(p: string): (k: nat)
    requires p != ""
    ensures 1 <= k <= |p|
  {
    if OpensClass(p) then ClassEnd(p).value + 1 else 1
  }

  function HeadToken(p: string): Token
    requires p != ""
  {
    if OpensClass(p) then ClassOf(p[1..ClassEnd(p).value]) else TokenOf(p[0])
  }

  /** `fnmatch`: stars, question marks and closed classes are special, an unclosed bracket is not. */
  function Parse(p: string): seq<Token>
    decreases |p|
  {
    if p == "" then [] else [HeadToken(p)] + Parse(p[HeadSize(p)..])
  }

  /** Single members and ranges; a range that runs backwards is empty. */
  predicate Member(members: string, c: char)
    decreases |members|
  {
    if members == "" then false
    else if |members| > 2 && members[1] == '-' then members[0] <= c <= members[2] || Member(members[3..], c)
    else members[0] == c || Member(members[1..], c)
  }

  predicate Fits(t: Token, c: char) {
    match t
    case One(d) => c == d
    case Any => true
    case Star => true
    case Class(negated, members) => Member(members, c) != negated
  }

  predicate Matches(ts: seq<Token>, s: string)
    decreases |ts| + |s|
  {
    if ts == [] then s == ""
    else if ts[0].Star? then Matches(ts[1..], s) || (s != "" && Matches(ts, s[1..]))
    else s != "" && Fits(ts[0], s[0]) && Matches(ts[1..], s[1..])
  }

  // ----- claim names -----

  predicate IsHexDigit(c: char) {
    '0' <= c <= '9' || 'a' <= c <= 'f'
  }

  predicate IsHex(h: string) {
    |h| == 32 && forall i | 0 <= i < |h| :: IsHexDigit(h[i])
  }

  const MARK: string := ".cleanup-"
  const TAIL: string := ".tmp"

  function ClaimName(name: Name, hex: string): Name {
    "." + name + MARK + hex + TAIL
  }

  /** Built like a claim name. */
  predicate IsClaim(n: Name) {
    && |n| >= 46 && n[0] == '.'
    && n[|n| - 45..|n| - 36] == MARK && IsHex(n[|n| - 36..|n| - 4]) && n[|n| - 4..] == TAIL
  }

  /** The file a claim name was built from. */
  function OwnerOf(n: Name): Name
    requires IsClaim(n)
  {
    n[1..|n| - 45]
  }

  function HexOf(n: Name): string
    requires IsClaim(n)
  {
    n[|n| - 36..|n| - 4]
  }

  /** `CLEANUP_TEMPORARY_RE.fullmatch`: the dot of the expression does not match a line feed. */
  predicate Recognised(n: Name) {
    IsClaim(n) && OwnerOf(n) != "" && '\n' !in OwnerOf(n)
  }

  function GlobOf(name: Name): string {
    "." + name + MARK + "*" + TAIL
  }

  /** What a restart for the file `name` takes for one of its claims. */
  predicate Lists(name: Name, n: Name) {
    Recognised(n) && Matches(Parse(GlobOf(name)), n)
  }

  lemma ClaimShape(name: Name, hex: string)
    requires IsHex(hex)
    ensures IsClaim(ClaimName(name, hex)) && OwnerOf(ClaimName(name, hex)) == name && HexOf(ClaimName(name, hex)) == hex
  {
    var n := ClaimName(name, hex);
    assert |MARK| == 9 && |TAIL| == 4;
    assert |n| == |name| + 46;
    assert n[|n| - 45..|n| - 36] == MARK;
    assert n[|n| - 36..|n| - 4] == hex;
    assert n[|n| - 4..] == TAIL;
    assert n[1..|n| - 45] == name;
  }

  lemma ClaimRebuilt(n: Name)
    requires IsClaim(n)
    ensures n == ClaimName(OwnerOf(n), HexOf(n)) && IsHex(HexOf(n))
  {
    assert n == n[..1] + n[1..|n| - 45] + n[|n| - 45..|n| - 36] + n[|n| - 36..|n| - 4] + n[|n| - 4..];
  }

  lemma HexDigits(c: char)
    ensures IsHexDigit(c) <==> c in "0123456789abcdef"
  {
  }

  /** A class without a hyphen holds the characters written in it. */
  lemma {:induction false} PlainClass(members: string, c: char)
    requires '-' !in members
    ensures Member(members, c) <==> c in members
    decreases |members|
  {
    if members != "" {
      assert |members| > 1 ==> members[1] in members;
      assert members == [members[0]] + members[1..];
      PlainClass(members[1..], c);
    }
  }

  /** A hyphen between two characters makes a range of them. */
  lemma RangeClass(low: char, high: char, rest: string, c: char)
    ensures Member([low, '-', high] + rest, c) <==> low <= c <= high || Member(rest, c)
  {
    assert ([low, '-', high] + rest)[3..] == rest;
  }

  // ----- patterns piece by piece -----

  predicate NoBracket(p: string) {
    '[' !in p
  }

  predicate Literal(p: string) {
    '*' !in p && '?' !in p && '[' !in p
  }

  lemma ParseOne(c: char, rest: string)
    requires c != '['
    ensures Parse([c] + rest) == [TokenOf(c)] + Parse(rest)
  {
    assert ([c] + rest)[1..] == rest;
  }

  lemma HeadSplit(a: string, b: string)
    requires a != "" && NoBracket(a)
    ensures HeadSize(a + b) == HeadSize(a) == 1 && HeadToken(a + b) == HeadToken(a)
    ensures (a + b)[1..] == a[1..] + b
  {
    assert a[0] in a && (a + b)[0] == a[0];
  }

  lemma {:induction false} ParseSplit(a: string, b: string)
    requires NoBracket(a)
    ensures Parse(a + b) == Parse(a) + Parse(b)
    decreases |a|
  {
    if a == "" {
      assert a + b == b;
    } else {
      HeadSplit(a, b);
      ParseSplit(a[1..], b);
    }
  }

  function Ones(p: string): seq<Token> {
    if p == "" then [] else [One(p[0])] + Ones(p[1..])
  }

  lemma {:induction false} ParseLiteral(p: string)
    requires Literal(p)
    ensures Parse(p) == Ones(p)
  {
    if p != "" {
      assert p[0] in p;
      ParseLiteral(p[1..]);
    }
  }

  lemma LiteralFirst(p: string, rest: string)
    requires Literal(p)
    ensures Parse(p + rest) == Ones(p) + Parse(rest)
  {
    ParseSplit(p, rest);
    ParseLiteral(p);
  }

  lemma StarFirst(p: string)
    requires Literal(p)
    ensures Parse("*" + p) == [Star] + Ones(p)
  {
    ParseOne('*', p);
    ParseLiteral(p);
  }

  lemma PrefixStep(p: string, s: string)
    requires p != "" && s != ""
    ensures p <= s <==> p[0] == s[0] && p[1..] <= s[1..]
    ensures p <= s ==> s[1..][|p| - 1..] == s[|p|..]
  {
    assert s == [s[0]] + s[1..] && p == [p[0]] + p[1..];
  }

  /** A literal piece matches itself, as a prefix. */
  lemma {:induction false} MatchOnes(p: string, ts: seq<Token>, s: string)
    ensures Matches(Ones(p) + ts, s) <==> p <= s && Matches(ts, s[|p|..])
    decreases |p|
  {
    var all := Ones(p) + ts;
    if p == "" {
      assert all == ts && s[0..] == s;
    } else {
      assert all[0] == One(p[0]) && all[1..] == Ones(p[1..]) + ts;
      if s != "" {
        MatchOnes(p[1..], ts, s[1..]);
        PrefixStep(p, s);
      }
    }
  }

  /** A star may skip any number of characters. */
  lemma {:induction false} StarSkips(ts: seq<Token>, s: string, k: nat)
    requires k <= |s| && Matches(ts, s[k..])
    ensures Matches([Star] + ts, s)
    decreases k
  {
    var all := [Star] + ts;
    assert all[0] == Star && all[1..] == ts;
    if k == 0 {
      assert s[0..] == s;
    } else {
      assert s[1..][k - 1..] == s[k..];
      StarSkips(ts, s[1..], k - 1);
    }
  }

  /** A star before a literal end asks for that end. */
  lemma {:induction false} StarThenEnd(e: string, s: string)
    ensures Matches([Star] + Ones(e), s) <==> |e| <= |s| && s[|s| - |e|..] == e
    decreases |s|
  {
    var all := [Star] + Ones(e);
    assert all[0] == Star && all[1..] == Ones(e) && Ones(e) + [] == Ones(e);
    MatchOnes(e, [], s);
    assert Matches(Ones(e), s) <==> s == e by {
      if e <= s { assert s == e + s[|e|..]; }
    }
    if s != "" {
      StarThenEnd(e, s[1..]);
      if |e| < |s| { assert s[1..][|s[1..]| - |e|..] == s[|s| - |e|..]; }
    }
  }

  /** Any text matches itself as long as it opens no bracket. */
  lemma {:induction false} SelfMatch(a: string, ts: seq<Token>, s: string)
    requires NoBracket(a) && Matches(ts, s)
    ensures Matches(Parse(a) + ts, a + s)
    decreases |a|
  {
    if a == "" {
      assert Parse(a) + ts == ts && a + s == s;
    } else {
      assert a[0] in a;
      SelfMatch(a[1..], ts, s);
      ParseOne(a[0], a[1..]);
      FitsOne(TokenOf(a[0]), Parse(a[1..]) + ts, a[0], a[1..] + s);
      assert a == [a[0]] + a[1..] && a + s == [a[0]] + (a[1..] + s);
      assert Parse(a) + ts == [TokenOf(a[0])] + (Parse(a[1..]) + ts);
    }
  }

  lemma FitsOne(t: Token, ts: seq<Token>, c: char, s: string)
    requires Fits(t, c) && Matches(ts, s)
    ensures Matches([t] + ts, [c] + s)
  {
    assert ([t] + ts)[1..] == ts && ([c] + s)[1..] == s;
    if t.Star? { StarSkips(ts, [c] + s, 1); }
  }

  lemma {:induction false} MatchJoin(a: seq<Token>, b: seq<Token>, s: string, t: string)
    requires Matches(a, s) && Matches(b, t)
    ensures Matches(a + b, s + t)
    decreases |a| + |s|
  {
    if a == [] {
      assert a + b == b && s + t == t;
    } else {
      assert (a + b)[0] == a[0] && (a + b)[1..] == a[1..] + b;
      if a[0].Star? && Matches(a[1..], s) {
        MatchJoin(a[1..], b, s, t);
      } else {
        assert (s + t)[0] == s[0] && (s + t)[1..] == s[1..] + t;
        MatchJoin(if a[0].Star? then a else a[1..], b, s[1..], t);
      }
    }
  }

  /** A text that matches two patterns in a row can be cut between them. */
  lemma {:induction false} MatchCut(a: seq<Token>, b: seq<Token>, s: string) returns (k: nat)
    requires Matches(a + b, s)
    ensures k <= |s| && Matches(a, s[..k]) && Matches(b, s[k..])
    decreases |a| + |s|
  {
    if a == [] {
      k := 0;
      assert a + b == b && s[0..] == s;
    } else {
      assert (a + b)[0] == a[0] && (a + b)[1..] == a[1..] + b;
      if a[0].Star? && Matches(a[1..] + b, s) {
        k := MatchCut(a[1..], b, s);
      } else {
        var j := MatchCut(if a[0].Star? then a else a[1..], b, s[1..]);
        k := j + 1;
        assert s[..k][0] == s[0] && s[..k][1..] == s[1..][..j] && s[k..] == s[1..][j..];
      }
    }
  }

  // ----- patterns with brackets -----

  lemma {:induction false} FindCloseBefore(a: string, b: string, j: nat)
    requires ']' !in b && j <= |a|
    ensures FindClose(a + b, j) == FindClose(a, j)
    decreases |a| + |b| - j
  {
    if j < |a| {
      if a[j] != ']' { FindCloseBefore(a, b, j + 1); }
    } else {
      NoneToClose(a, b, j);
    }
  }

  lemma {:induction false} NoneToClose(a: string, b: string, j: nat)
    requires ']' !in b && |a| <= j <= |a + b|
    ensures FindClose(a + b, j).None?
    decreases |a + b| - j
  {
    if j < |a + b| {
      assert (a + b)[j] == b[j - |a|] && b[j - |a|] in b;
      NoneToClose(a, b, j + 1);
    }
  }

  lemma ClassEndBefore(a: string, b: string)
    requires a != "" && a[0] == '[' && ']' !in b && !("!" <= b)
    ensures ClassEnd(a + b) == ClassEnd(a)
  {
    var p := a + b;
    assert |a| == 1 && b != "" ==> p[1] == b[0] && b == [b[0]] + b[1..];
    var j := if 1 < |a| && a[1] == '!' then 2 else 1;
    assert (if 1 < |p| && p[1] == '!' then 2 else 1) == j;
    assert j < |p| && p[j] == ']' ==> j < |a| by {
      if |a| <= j < |p| { assert p[j] == b[j - |a|] && b[j - |a|] in b; }
    }
    FindCloseBefore(a, b, if j < |a| && a[j] == ']' then j + 1 else j);
  }

  lemma HeadBefore(a: string, b: string)
    requires a != "" && ']' !in b && !("!" <= b)
    ensures HeadSize(a + b) == HeadSize(a) && HeadToken(a + b) == HeadToken(a)
    ensures (a + b)[HeadSize(a)..] == a[HeadSize(a)..] + b
  {
    if a[0] == '[' {
      ClassEndBefore(a, b);
      if OpensClass(a) { assert (a + b)[1..ClassEnd(a).value] == a[1..ClassEnd(a).value]; }
    }
  }

  /** A text that neither closes a class nor negates one may be cut off any pattern. */
  lemma {:induction false} ParseBefore(a: string, b: string)
    requires ']' !in b && !("!" <= b)
    ensures Parse(a + b) == Parse(a) + Parse(b)
    decreases |a|
  {
    if a == "" {
      assert a + b == b;
    } else {
      HeadBefore(a, b);
      ParseBefore(a[HeadSize(a)..], b);
    }
  }

  // ----- what the glob of a name lists -----

  lemma GlobParts(name: Name)
    requires NoBracket(name)
    ensures Parse(GlobOf(name)) == Parse("." + name + MARK) + [Star] + Ones(TAIL)
  {
    var head := "." + name + MARK;
    assert GlobOf(name) == head + ("*" + TAIL);
    ParseSplit(head, "*" + TAIL);
    ParseEnding();
  }

  /** A name without brackets and line feeds finds its own claims. */
  lemma NoBracketListsItself(name: Name, hex: string)
    requires NoBracket(name) && name != "" && '\n' !in name && IsHex(hex)
    ensures Lists(name, ClaimName(name, hex))
  {
    var head, rest := "." + name + MARK, hex + TAIL;
    GlobParts(name);
    TailMatches(hex);
    SelfMatch(head, [Star] + Ones(TAIL), rest);
    assert Parse(head) + ([Star] + Ones(TAIL)) == Parse(head) + [Star] + Ones(TAIL);
    assert head + rest == ClaimName(name, hex);
    ClaimShape(name, hex);
  }

  /** What follows the head of a pattern. */
  function Ending(): seq<Token> {
    [Star] + Ones(TAIL)
  }

  lemma LiteralParts(name: Name, head: string)
    requires Literal(name) && head == "." + name + MARK
    ensures Literal(head) && GlobOf(name) == head + ("*" + TAIL)
  {
    assert forall c | c in head :: c == '.' || c in name || c in MARK;
  }

  lemma HeadMatches(name: Name, head: string, n: Name)
    requires Literal(name) && head == "." + name + MARK
    ensures Matches(Parse(GlobOf(name)), n) <==> head <= n && Matches(Ending(), n[|head|..])
  {
    LiteralParts(name, head);
    LiteralFirst(head, "*" + TAIL);
    ParseEnding();
    MatchOnes(head, Ending(), n);
  }

  lemma EndingMatches(n: Name, k: nat)
    requires IsClaim(n) && k <= |n|
    ensures Matches(Ending(), n[k..]) <==> k + 4 <= |n|
  {
    assert |TAIL| == 4;
    StarThenEnd(TAIL, n[k..]);
    if k + 4 <= |n| { assert n[k..][|n| - k - 4..] == n[|n| - 4..]; }
  }

  /** A literal name lists a claim exactly when the claim starts like its own ones. */
  lemma LiteralMatches(name: Name, n: Name)
    requires Literal(name) && IsClaim(n)
    ensures Matches(Parse(GlobOf(name)), n) <==> "." + name + MARK <= n && |n| >= |name| + 14
  {
    HeadMatches(name, "." + name + MARK, n);
    if "." + name + MARK <= n { EndingMatches(n, |name| + 10); }
  }

  // ----- whose claims a name finds -----

  /** A test on the two names alone. */
  predicate Finds(name: Name, owner: Name) {
    Matches(Parse("." + name + MARK + "*"), "." + owner + MARK)
  }

  lemma AnyGlob(name: Name)
    ensures Parse(GlobOf(name)) == Parse("." + name) + (Ones(MARK) + Ending())
  {
    assert GlobOf(name) == "." + name + (MARK + ("*" + TAIL));
    AnyGlobBefore(name, "*" + TAIL);
    ParseEnding();
  }

  lemma ParseEnding()
    ensures Parse("*" + TAIL) == Ending()
  {
    StarFirst(TAIL);
  }

  lemma AnyHead(name: Name)
    ensures Parse("." + name + MARK + "*") == Parse("." + name) + (Ones(MARK) + [Star])
  {
    assert "." + name + MARK + "*" == "." + name + (MARK + "*");
    AnyGlobBefore(name, "*");
    assert "*" == ['*'] + "";
    ParseOne('*', "");
  }

  lemma AnyGlobBefore(name: Name, rest: string)
    requires ']' !in rest
    ensures Parse("." + name + (MARK + rest)) == Parse("." + name) + (Ones(MARK) + Parse(rest))
  {
    assert ']' !in MARK + rest && (MARK + rest)[0] == '.';
    ParseBefore("." + name, MARK + rest);
    ParseMark(rest);
  }

  lemma ParseMark(rest: string)
    ensures Parse(MARK + rest) == Ones(MARK) + Parse(rest)
  {
    LiteralFirst(MARK, rest);
  }

  lemma StarMatches(s: string)
    ensures Matches([Star], s)
  {
    assert [Star] + [] == [Star];
    StarSkips([], s, |s|);
  }

  /** What a star at the end has left over may grow up to the tail of a claim. */
  lemma StarGrows(a: seq<Token>, b: seq<Token>, s: string, more: string)
    requires Matches(a + (b + [Star]), s)
    ensures Matches(a + (b + Ending()), s + more + TAIL)
  {
    var ts := a + b;
    assert a + (b + [Star]) == ts + [Star];
    var k := MatchCut(ts, [Star], s);
    TailMatches(s[k..] + more);
    MatchJoin(ts, Ending(), s[..k], s[k..] + more + TAIL);
    assert s[..k] + s[k..] == s;
    assert s[..k] + (s[k..] + more + TAIL) == s + more + TAIL;
    assert a + (b + Ending()) == ts + Ending();
  }

  /** Where the mark of the pattern meets the text of a claim, it lies before the random part. */
  lemma MarkBeforeHex(owner: Name, hex: string, k: nat)
    requires IsHex(hex) && k <= |ClaimName(owner, hex)| && MARK <= ClaimName(owner, hex)[k..]
    ensures k <= |owner| + 1
  {
    var n := ClaimName(owner, hex);
    ClaimDots(owner, hex);
    assert |MARK| == 9 && n[k..][0] == '.' && n[k..][0] == n[k];
  }

  lemma FoundIsListed(name: Name, owner: Name, hex: string)
    requires Finds(name, owner)
    ensures Matches(Parse(GlobOf(name)), ClaimName(owner, hex))
  {
    AnyGlob(name);
    AnyHead(name);
    StarGrows(Parse("." + name), Ones(MARK), "." + owner + MARK, hex);
  }

  /** What matches up to a mark matches with anything behind the mark. */
  lemma MarkThenAny(ts: seq<Token>, s: string, k: nat)
    requires k <= |s| && Matches(ts, s[..k]) && MARK <= s[k..]
    ensures Matches(ts + (Ones(MARK) + [Star]), s)
  {
    StarMatches(s[k..][|MARK|..]);
    MatchOnes(MARK, [Star], s[k..]);
    MatchJoin(ts, Ones(MARK) + [Star], s[..k], s[k..]);
    assert s[..k] + s[k..] == s;
  }

  lemma MarkStays(s: string, more: string, k: nat)
    requires k + 9 <= |s| && MARK <= (s + more)[k..]
    ensures (s + more)[..k] == s[..k] && MARK <= s[k..]
  {
    assert |MARK| == 9 && (s + more)[k..][..9] == s[k..][..9];
  }

  lemma ListedIsFound(name: Name, owner: Name, hex: string)
    requires Matches(Parse(GlobOf(name)), ClaimName(owner, hex)) && IsHex(hex)
    ensures Finds(name, owner)
  {
    var text, n := "." + owner + MARK, ClaimName(owner, hex);
    AnyGlob(name);
    AnyHead(name);
    var k := MatchCut(Parse("." + name), Ones(MARK) + Ending(), n);
    MatchOnes(MARK, Ending(), n[k..]);
    MarkBeforeHex(owner, hex, k);
    assert n == text + (hex + TAIL) && |text| == |owner| + 10;
    MarkStays(text, hex + TAIL, k);
    MarkThenAny(Parse("." + name), text, k);
  }

  /** Whatever the names are, whose claims a restart finds is decided by the names, not by the random part. */
  lemma ListsByNames(name: Name, owner: Name, hex: string)
    requires IsHex(hex)
    ensures Lists(name, ClaimName(owner, hex)) <==> owner != "" && '\n' !in owner && Finds(name, owner)
  {
    ClaimShape(owner, hex);
    if Finds(name, owner) { FoundIsListed(name, owner, hex); }
    if Lists(name, ClaimName(owner, hex)) { ListedIsFound(name, owner, hex); }
  }

  /** Dots in a claim name after its owner: one at the mark, one at the tail. */
  lemma ClaimDots(owner: Name, hex: string)
    requires IsHex(hex)
    ensures var n := ClaimName(owner, hex);
      && |n| == |owner| + 46 && n[1..|owner| + 1] == owner && n[|owner| + 1] == '.'
      && forall i | |owner| + 1 < i < |owner| + 42 :: n[i] != '.'
  {
    var n := ClaimName(owner, hex);
    assert n[|owner| + 1..|owner| + 10] == MARK;
    assert n[|owner| + 10..|owner| + 42] == hex;
    forall i | |owner| + 1 < i < |owner| + 42 ensures n[i] != '.' {
      if i < |owner| + 10 {
        assert n[i] == MARK[i - |owner| - 1];
      } else {
        assert n[i] == hex[i - |owner| - 10] && IsHexDigit(hex[i - |owner| - 10]);
      }
    }
  }

  lemma MarkDots(n: string, at: nat)
    requires at + 9 <= |n| && n[at..at + 9] == MARK
    ensures n[at] == '.' && forall i | at < i < at + 9 :: n[i] != '.'
  {
    assert forall i | at <= i < at + 9 :: n[i] == n[at..at + 9][i - at];
  }

  /** The mark begins where the owner ends, or inside the owner. */
  lemma MarkPlace(name: Name, owner: Name, hex: string)
    requires IsHex(hex) && "." + name + MARK <= ClaimName(owner, hex)
    ensures name == owner || name + MARK <= owner
  {
    var n, at := ClaimName(owner, hex), |name| + 1;
    var head := "." + name + MARK;
    assert n[..at + 9] == head && head[1..at] == name && head[at..] == MARK;
    assert n[1..at] == name && n[at..at + 9] == MARK;
    ClaimDots(owner, hex);
    MarkDots(n, at);
    if |name| + 9 <= |owner| {
      assert name + MARK == n[1..at + 9] == owner[..|name| + 9];
    }
  }

  /**
   A literal name lists, besides its own claims, exactly the claims of files whose name continues it with the
   mark itself.
   */
  lemma LiteralLists(name: Name, owner: Name, hex: string)
    requires Literal(name) && name != "" && owner != "" && '\n' !in owner && IsHex(hex)
    ensures Lists(name, ClaimName(owner, hex)) <==> owner == name || name + MARK <= owner
  {
    var n := ClaimName(owner, hex);
    ClaimShape(owner, hex);
    LiteralMatches(name, n);
    if "." + name + MARK <= n {
      MarkPlace(name, owner, hex);
    }
    if name + MARK <= owner {
      assert "." + name + MARK <= "." + owner <= n;
    }
    if owner == name {
      assert "." + name + MARK <= n;
    }
  }

  // ----- names that do not behave -----

  lemma TailMatches(hex: string)
    ensures Matches([Star] + Ones(TAIL), hex + TAIL)
  {
    StarThenEnd(TAIL, hex + TAIL);
    assert (hex + TAIL)[|hex|..] == TAIL;
  }

  /** A star reaches the claims of every file that has something else in its place. */
  lemma StarListsOthers(a: string, x: string, b: string, hex: string)
    requires NoBracket(a) && NoBracket(b) && a + x + b != "" && '\n' !in a + x + b && IsHex(hex)
    ensures Lists(a + "*" + b, ClaimName(a + x + b, hex))
  {
    var right, rest := b + MARK, hex + TAIL;
    var ts, y := Parse(right) + ([Star] + Ones(TAIL)), right + rest;
    TailMatches(hex);
    SelfMatch(right, [Star] + Ones(TAIL), rest);
    assert (x + y)[|x|..] == y;
    StarSkips(ts, x + y, |x|);
    SelfMatch("." + a, [Star] + ts, x + y);
    StarGlob(a, b);
    StarName(a, x, b, hex);
    ClaimShape(a + x + b, hex);
  }

  lemma StarName(a: string, x: string, b: string, hex: string)
    ensures ("." + a) + (x + ((b + MARK) + (hex + TAIL))) == ClaimName(a + x + b, hex)
  {
  }

  lemma StarGlob(a: string, b: string)
    requires NoBracket(a) && NoBracket(b)
    ensures Parse(GlobOf(a + "*" + b)) == Parse("." + a) + ([Star] + (Parse(b + MARK) + ([Star] + Ones(TAIL))))
  {
    StarGlobText(a, b);
    ParseSplit("." + a, ['*'] + (b + (MARK + ("*" + TAIL))));
    ParseOne('*', b + (MARK + ("*" + TAIL)));
    ParseRight(b);
  }

  lemma StarGlobText(a: string, b: string)
    ensures GlobOf(a + "*" + b) == ("." + a) + (['*'] + (b + (MARK + ("*" + TAIL))))
  {
  }

  function Bracketed(a: string, c: char, b: string): Name {
    a + ['[', c, ']'] + b
  }

  lemma ParseGroup(c: char, rest: string)
    requires c != '!' && c != ']'
    ensures Parse(['[', c, ']'] + rest) == [Class(false, [c])] + Parse(rest)
  {
    var p := ['[', c, ']'] + rest;
    assert FindClose(p, 1) == FindClose(p, 2) == Some(2);
    assert ClassEnd(p) == Some(2) && p[1..2] == [c] && p[3..] == rest;
  }

  lemma BracketGlob(a: string, c: char, b: string)
    requires Literal(a) && c != '!' && c != ']'
    ensures Parse(GlobOf(Bracketed(a, c, b))) ==
      Ones("." + a) + ([Class(false, [c])] + Parse(b + (MARK + ("*" + TAIL))))
  {
    var rest := b + (MARK + ("*" + TAIL));
    assert GlobOf(Bracketed(a, c, b)) == ("." + a) + (['[', c, ']'] + rest);
    ParseSplit("." + a, ['[', c, ']'] + rest);
    ParseLiteral("." + a);
    ParseGroup(c, rest);
  }

  /** A closed bracket hides the file's own claims. */
  lemma BracketHidesOwn(a: string, c: char, b: string, hex: string)
    requires Literal(a) && c != '!' && c != ']' && c != '['
    ensures !Lists(Bracketed(a, c, b), ClaimName(Bracketed(a, c, b), hex))
  {
    var n, ts := ClaimName(Bracketed(a, c, b), hex), Parse(b + (MARK + ("*" + TAIL)));
    BracketGlob(a, c, b);
    MatchOnes("." + a, [Class(false, [c])] + ts, n);
    assert n[|"." + a|..][0] == '[';
    assert !Member([c], '[') by { assert [c][1..] == ""; }
    NoFit(Class(false, [c]), ts, n[|"." + a|..]);
  }

  lemma NoFit(t: Token, ts: seq<Token>, s: string)
    requires !t.Star? && s != "" && !Fits(t, s[0])
    ensures !Matches([t] + ts, s)
  {
  }

  lemma TakeOne(t: Token, ts: seq<Token>, c: char, s: string)
    requires !t.Star?
    ensures Matches([t] + ts, [c] + s) <==> Fits(t, c) && Matches(ts, s)
  {
    assert ([t] + ts)[1..] == ts && ([c] + s)[1..] == s;
  }

  /** And it reaches the claims of another file. */
  lemma BracketListsOther(a: string, c: char, b: string, hex: string)
    requires Literal(a) && c != '!' && c != ']' && NoBracket(b) && '\n' !in a + [c] + b && IsHex(hex)
    ensures Lists(Bracketed(a, c, b), ClaimName(a + [c] + b, hex))
  {
    var right, rest := b + MARK, hex + TAIL;
    TailMatches(hex);
    SelfMatch(right, Ending(), rest);
    ParseRight(b);
    TakeOne(Class(false, [c]), Parse(right) + Ending(), c, right + rest);
    PrefixMatches("." + a, [Class(false, [c])] + (Parse(right) + Ending()), [c] + (right + rest));
    BracketGlob(a, c, b);
    OtherName(a, c, b, hex);
    ClaimShape(a + [c] + b, hex);
  }

  lemma ParseRight(b: string)
    requires NoBracket(b)
    ensures Parse(b + (MARK + ("*" + TAIL))) == Parse(b + MARK) + Ending()
  {
    assert b + (MARK + ("*" + TAIL)) == (b + MARK) + ("*" + TAIL);
    ParseSplit(b + MARK, "*" + TAIL);
    ParseEnding();
  }

  lemma PrefixMatches(p: string, ts: seq<Token>, s: string)
    requires Matches(ts, s)
    ensures Matches(Ones(p) + ts, p + s)
  {
    MatchOnes(p, ts, p + s);
    assert (p + s)[|p|..] == s;
  }

  lemma OtherName(a: string, c: char, b: string, hex: string)
    ensures ("." + a) + ([c] + ((b + MARK) + (hex + TAIL))) == ClaimName(a + [c] + b, hex)
  {
  }

  /** Without any wildcard, a name is a prefix of the claims of a file named after the mark. */
  lemma MarkedNameIsListed(hex: string)
    requires IsHex(hex)
    ensures Lists("x", ClaimName("x.cleanup-y", hex))
  {
    assert "x" + MARK <= "x.cleanup-y";
    LiteralLists("x", "x.cleanup-y", hex);
  }
}
