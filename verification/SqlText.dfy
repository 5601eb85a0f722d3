/**
 The text algorithms of packages/db/scripts/check-drift.ts: the SQL comment
 stripper, the balanced-parenthesis scan of a CREATE TABLE body, and its split
 on top-level commas.
 */
module SqlText {

  predicate OccursAt(s: string, part: string, i: nat) {
    i + |part| <= |s| && s[i..i + |part|] == part
  }

  /** `s.indexOf(part, from)`. */
  function IndexOf(s: string, part: string, from: nat): (r: int)
    ensures r == -1 ==> forall j: nat :: from <= j ==> !OccursAt(s, part, j)
    ensures r != -1 ==> from <= r && OccursAt(s, part, r) && forall j: nat :: from <= j < r ==> !OccursAt(s, part, j)
    decreases |s| - from
  {
    if from + |part| > |s| then -1
    else if OccursAt(s, part, from) then from
    else if from == |s| then -1
    else IndexOf(s, part, from + 1)
  }

  predicate Begins(s: string, a: char, b: char) {
    |s| >= 2 && s[0] == a && s[1] == b
  }

  // ── Tokens ────────────────────────────────────────────────────────────────

  /** `Unclosed` is a tail whose comment, quote or dollar body never ends. */
  datatype Token =
    | LineComment(text: string)
    | BlockComment(text: string)
    | Quoted(text: string)
    | Dollar(text: string)
    | Plain(text: string)
    | Unclosed(text: string)

  function FirstToken(s: string): (token: Token)
    requires s != ""
    ensures token.Unclosed? ==> token.text == s
    ensures !token.Unclosed? ==> 0 < |token.text| <= |s| && token.text == s[..|token.text|]
  {
    if Begins(s, '-', '-') then
      var nl := IndexOf(s, "\n", 0);
      if nl == -1 then Unclosed(s) else Until(s, nl); LineComment(s[..nl])
    else if Begins(s, '/', '*') then
      var end := IndexOf(s, "*/", 2);
      if end == -1 then Unclosed(s) else BlockComment(s[..end + 2])
    else if s[0] == '\'' then
      var end := IndexOf(s, "'", 1);
      if end == -1 then Unclosed(s) else Quoted(s[..end + 1])
    else if Begins(s, '$', '$') then
      var end := IndexOf(s, "$$", 2);
      if end == -1 then Unclosed(s) else Dollar(s[..end + 2])
    else Plain(s[..1])
  }

  function Lex(s: string): seq<Token>
    decreases |s|
  {
    if s == "" then []
    else
      var token := FirstToken(s);
      if token.Unclosed? then [token] else [token] + Lex(s[|token.text|..])
  }

  /** A newline found from a line comment's start lies past its dashes. */
  lemma Until(s: string, nl: int)
    requires Begins(s, '-', '-') && nl >= 0 && OccursAt(s, "\n", nl)
    ensures nl >= 2
  {
    assert s[nl] == '\n';
  }

  function Text(tokens: seq<Token>): string {
    if tokens == [] then "" else tokens[0].text + Text(tokens[1..])
  }

  /** What the stripper writes for a token. */
  function RenderOne(token: Token): string {
    match token
    case LineComment(_) => ""
    case BlockComment(_) => " "
    case Unclosed(_) => ""
    case Quoted(text) => text
    case Dollar(text) => text
    case Plain(text) => text
  }

  function Render(tokens: seq<Token>): string {
    if tokens == [] then "" else RenderOne(tokens[0]) + Render(tokens[1..])
  }

  function Stripped(s: string): string {
    Render(Lex(s))
  }

  lemma RenderCons(token: Token, rest: seq<Token>)
    ensures Render([token] + rest) == RenderOne(token) + Render(rest)
  {
    assert ([token] + rest)[1..] == rest;
  }

  lemma RenderUnclosed(s: string)
    ensures Render([Unclosed(s)]) == "" && Clean([Unclosed(s)]) == []
  {
    assert [Unclosed(s)][1..] == [];
  }

  ghost predicate StripState(sql: string, i: nat, out: string) {
    i <= |sql| && out + Stripped(sql[i..]) == Stripped(sql)
  }

  lemma LexFirst(s: string, rest: string)
    requires s != "" && !FirstToken(s).Unclosed? && rest == s[|FirstToken(s).text|..]
    ensures Stripped(s) == RenderOne(FirstToken(s)) + Stripped(rest)
  {
    RenderCons(FirstToken(s), Lex(rest));
  }

  lemma WriteOne(out: string, one: string, tail: string, all: string)
    requires out + (one + tail) == all
    ensures out + one + tail == all
  {
  }

  /** One turn of the stripper: a closed token at `i` is rendered and passed. */
  lemma Advance(sql: string, i: nat, out: string, token: Token, next: nat, written: string)
    requires StripState(sql, i, out) && i < |sql|
    requires FirstToken(sql[i..]) == token && !token.Unclosed?
    requires next == i + |token.text| && written == out + RenderOne(token)
    ensures StripState(sql, next, written)
  {
    assert sql[i..][|token.text|..] == sql[next..];
    LexFirst(sql[i..], sql[next..]);
    WriteOne(out, RenderOne(token), Stripped(sql[next..]), Stripped(sql));
  }

  /** An unclosed tail is dropped. */
  lemma Stop(sql: string, i: nat, out: string)
    requires StripState(sql, i, out) && i < |sql| && FirstToken(sql[i..]).Unclosed?
    ensures out == Stripped(sql)
  {
    RenderUnclosed(sql[i..]);
  }

  method StripSqlComments(sql: string) returns (out: string)
    ensures out == Stripped(sql)
  {
    out := "";
    var i: nat := 0;
    assert sql[0..] == sql;
    while i < |sql|
      invariant StripState(sql, i, out)
    {
      var rest := sql[i..];
      ghost var at, was := i, out;
      if Begins(rest, '-', '-') {
        var nl := IndexOf(rest, "\n", 0);
        if nl == -1 {
          Stop(sql, i, out);
          return;
        }
        i := i + nl;
        Advance(sql, at, was, LineComment(rest[..nl]), i, out);
      } else if Begins(rest, '/', '*') {
        var end := IndexOf(rest, "*/", 2);
        if end == -1 {
          Stop(sql, i, out);
          return;
        }
        out := out + " ";
        i := i + end + 2;
        Advance(sql, at, was, BlockComment(rest[..end + 2]), i, out);
      } else if sql[i] == '\'' {
        var end := IndexOf(rest, "'", 1);
        if end == -1 {
          Stop(sql, i, out);
          return;
        }
        out := out + rest[..end + 1];
        i := i + end + 1;
        Advance(sql, at, was, Quoted(rest[..end + 1]), i, out);
      } else if Begins(rest, '$', '$') {
        var end := IndexOf(rest, "$$", 2);
        if end == -1 {
          Stop(sql, i, out);
          return;
        }
        out := out + rest[..end + 2];
        i := i + end + 2;
        Advance(sql, at, was, Dollar(rest[..end + 2]), i, out);
      } else {
        out := out + [sql[i]];
        i := i + 1;
        assert rest[..1] == [sql[at]];
        Advance(sql, at, was, Plain([sql[at]]), i, out);
      }
    }
  }

  // ── What stripping keeps ──────────────────────────────────────────────────

  /** Tokens cover the text, in order and without gaps. */
  lemma {:induction false} LexIsLossless(s: string)
    ensures Text(Lex(s)) == s
    decreases |s|
  {
    if s != "" {
      var tokens := Lex(s);
      var n := |tokens[0].text|;
      if tokens[0].Unclosed? {
        assert tokens[1..] == [];
      } else {
        assert tokens[1..] == Lex(s[n..]);
        LexIsLossless(s[n..]);
        assert s == s[..n] + s[n..];
      }
    }
  }

  /** The token sequence of a stripped text: comments become a blank or nothing, the rest stays. */
  function Clean(tokens: seq<Token>): seq<Token> {
    if tokens == [] then []
    else match tokens[0]
      case LineComment(_) => Clean(tokens[1..])
      case Unclosed(_) => Clean(tokens[1..])
      case BlockComment(_) => [Plain(" ")] + Clean(tokens[1..])
      case _ => [tokens[0]] + Clean(tokens[1..])
  }

  /** Quoted and dollar-quoted bodies, in order. */
  function Bodies(tokens: seq<Token>): seq<string> {
    if tokens == [] then []
    else if tokens[0].Quoted? || tokens[0].Dollar? then [tokens[0].text] + Bodies(tokens[1..])
    else Bodies(tokens[1..])
  }

  predicate NoComments(tokens: seq<Token>) {
    forall t :: t in tokens ==> !t.LineComment? && !t.BlockComment? && !t.Unclosed?
  }

  lemma {:induction false} CleanFacts(tokens: seq<Token>)
    ensures Render(Clean(tokens)) == Render(tokens)
    ensures Bodies(Clean(tokens)) == Bodies(tokens)
    ensures NoComments(Clean(tokens))
  {
    if tokens != [] {
      CleanFacts(tokens[1..]);
      var head := if tokens[0].BlockComment? then Plain(" ") else tokens[0];
      RenderCons(head, Clean(tokens[1..]));
      assert ([head] + Clean(tokens[1..]))[1..] == Clean(tokens[1..]);
    }
  }

  /** A stripped text begins as the text does, or with the newline or blank left by a comment. */
  lemma StrippedStart(s: string)
    requires Stripped(s) != ""
    ensures s != "" && (Stripped(s)[0] == s[0] || Stripped(s)[0] == '\n' || Stripped(s)[0] == ' ')
  {
    var tokens := Lex(s);
    if tokens[0].Unclosed? {
      RenderUnclosed(s);
    } else {
      var n := |tokens[0].text|;
      RenderCons(tokens[0], Lex(s[n..]));
      if tokens[0].LineComment? {
        assert s[n..][0] == '\n' by {
          var nl := IndexOf(s, "\n", 0);
          assert nl == n && s[nl..nl + 1] == "\n";
        }
        NewlineLexes(s[n..]);
      }
    }
  }

  lemma NewlineLexes(s: string)
    requires s != "" && s[0] == '\n'
    ensures Stripped(s) != "" && Stripped(s)[0] == '\n'
  {
    RenderCons(Plain(s[..1]), Lex(s[1..]));
  }

  /** Where a closing mark is found does not depend on what follows it. */
  lemma IndexOfPrefix(s: string, part: string, from: nat, tail: string)
    requires part != "" && IndexOf(s, part, from) != -1
    ensures IndexOf(s[..IndexOf(s, part, from) + |part|] + tail, part, from) == IndexOf(s, part, from)
  {
    var k := IndexOf(s, part, from);
    var s' := s[..k + |part|] + tail;
    assert s'[k..k + |part|] == s[k..k + |part|];
    assert OccursAt(s', part, k);
    forall j: nat | from <= j < k
      ensures !OccursAt(s', part, j)
    {
      assert s'[j..j + |part|] == s[j..j + |part|];
      assert !OccursAt(s, part, j);
    }
  }

  /** A quoted body, followed by anything, is read back as itself; so is a dollar-quoted one. */
  lemma LexQuotedAgain(s: string, end: int, tail: string)
    requires s != "" && s[0] == '\'' && end == IndexOf(s, "'", 1) && end != -1
    ensures Lex(s[..end + 1] + tail) == [Quoted(s[..end + 1])] + Lex(tail)
  {
    var s' := s[..end + 1] + tail;
    IndexOfPrefix(s, "'", 1, tail);
    assert s'[0] == '\'' && s'[end + 1..] == tail && s'[..end + 1] == s[..end + 1];
  }

  lemma LexDollarAgain(s: string, end: int, tail: string)
    requires Begins(s, '$', '$') && end == IndexOf(s, "$$", 2) && end != -1
    ensures Lex(s[..end + 2] + tail) == [Dollar(s[..end + 2])] + Lex(tail)
  {
    var s' := s[..end + 2] + tail;
    IndexOfPrefix(s, "$$", 2, tail);
    assert Begins(s', '$', '$') && s'[end + 2..] == tail && s'[..end + 2] == s[..end + 2];
  }

  lemma LexPlainAgain(c: char, tail: string)
    requires c != '\'' && (tail != "" ==> !(c == '-' && tail[0] == '-') && !(c == '/' && tail[0] == '*') && !(c == '$' && tail[0] == '$'))
    ensures Lex([c] + tail) == [Plain([c])] + Lex(tail)
  {
    var s := [c] + tail;
    assert s[1..] == tail && s[..1] == [c];
  }

  lemma {:induction false} LexOfStripped(s: string)
    ensures Lex(Stripped(s)) == Clean(Lex(s))
    decreases |s|
  {
    if s == "" {
      return;
    }
    var tokens := Lex(s);
    if tokens[0].Unclosed? {
      RenderUnclosed(s);
      return;
    }
    var rest := s[|tokens[0].text|..];
    assert tokens[1..] == Lex(rest);
    LexOfStripped(rest);
    RenderCons(tokens[0], Lex(rest));
    match tokens[0] {
      case LineComment(_) => assert Stripped(s) == Stripped(rest);
      case BlockComment(_) => LexPlainAgain(' ', Stripped(rest));
      case Plain(_) =>
        if Stripped(rest) != "" {
          StrippedStart(rest);
          assert rest[0] == s[1];
        }
        LexPlainAgain(s[0], Stripped(rest));
      case Quoted(_) => LexQuotedAgain(s, IndexOf(s, "'", 1), Stripped(rest));
      case Dollar(_) => LexDollarAgain(s, IndexOf(s, "$$", 2), Stripped(rest));
      case Unclosed(_) =>
    }
  }

  /**
   Stripping twice is stripping once, leaves no comment and nothing unclosed,
   and carries every quoted and dollar-quoted body over unchanged and in order.
   */
  lemma StripKeepsBodies(s: string)
    ensures Stripped(Stripped(s)) == Stripped(s)
    ensures NoComments(Lex(Stripped(s)))
    ensures Bodies(Lex(Stripped(s))) == Bodies(Lex(s))
  {
    LexOfStripped(s);
    CleanFacts(Lex(s));
  }

  // ── On texts ──────────────────────────────────────────────────────────────

  /** Nothing in the text can begin a comment or a quoted body. */
  predicate Calm(a: string) {
    forall i :: 0 <= i < |a| ==> a[i] != '\'' && a[i] != '-' && a[i] != '/' && a[i] != '$'
  }

  /** The two characters do not follow each other in the text. */
  predicate Without(b: string, first: char, second: char) {
    forall i :: 0 <= i < |b| - 1 ==> !(b[i] == first && b[i + 1] == second)
  }

  /** The character begins nothing before this text. */
  predicate BeginsNothing(c: char, rest: string) {
    && c != '\''
    && (rest != "" ==> !(c == '-' && rest[0] == '-') && !(c == '/' && rest[0] == '*') && !(c == '$' && rest[0] == '$'))
  }

  lemma OnePlain(c: char, rest: string)
    requires BeginsNothing(c, rest)
    ensures Stripped([c] + rest) == [c] + Stripped(rest)
  {
    LexPlainAgain(c, rest);
    RenderCons(Plain([c]), Lex(rest));
  }

  lemma MoveHead(a: string, rest: string)
    requires a != ""
    ensures a + rest == [a[0]] + (a[1..] + rest)
  {
  }

  lemma {:induction false} CalmKept(a: string, rest: string)
    requires Calm(a)
    ensures Stripped(a + rest) == a + Stripped(rest)
    decreases |a|
  {
    if a == "" {
      assert a + rest == rest;
    } else {
      CalmKept(a[1..], rest);
      OnePlain(a[0], a[1..] + rest);
      MoveHead(a, rest);
      MoveHead(a, Stripped(rest));
    }
  }

  lemma OpenTail(s: string)
    requires s != "" && FirstToken(s).Unclosed?
    ensures Stripped(s) == ""
  {
    RenderUnclosed(s);
  }

  lemma ClosedToken(s: string, token: Token, rest: string)
    requires s != "" && FirstToken(s) == token && !token.Unclosed? && s == token.text + rest
    ensures Stripped(s) == RenderOne(token) + Stripped(rest)
  {
    assert s[|token.text|..] == rest;
    LexFirst(s, rest);
  }

  /** Where a closing character is found: just after a text without it. */
  lemma CharFound(open: string, mark: char, from: nat, rest: string)
    requires from <= |open| && forall j :: from <= j < |open| ==> open[j] != mark
    ensures IndexOf(open + [mark] + rest, [mark], from) == |open|
    ensures IndexOf(open, [mark], from) == -1
  {
    var s := open + [mark] + rest;
    assert s[|open|..|open| + 1] == [mark];
    assert OccursAt(s, [mark], |open|);
    forall j: nat | from <= j < |open|
      ensures !OccursAt(s, [mark], j) && !OccursAt(open, [mark], j)
    {
      assert s[j..j + 1][0] == open[j] && open[j..j + 1][0] == open[j];
    }
  }

  lemma PairAt(s: string, first: char, second: char, j: nat)
    ensures OccursAt(s, [first, second], j) <==> j + 2 <= |s| && s[j] == first && s[j + 1] == second
  {
    if j + 2 <= |s| {
      assert s[j..j + 2] == [s[j], s[j + 1]];
    }
  }

  /** And a closing pair of characters, looked for after an opening pair. */
  lemma PairFoundAfter(open: string, b: string, first: char, second: char, rest: string)
    requires |open| == 2 && Without(b, first, second) && (first == second && b != "" ==> b[|b| - 1] != first)
    ensures IndexOf(open + b + [first, second] + rest, [first, second], 2) == |b| + 2
  {
    var s := open + b + [first, second] + rest;
    PairAt(s, first, second, |b| + 2);
    forall j: nat | 2 <= j < |b| + 2
      ensures !OccursAt(s, [first, second], j)
    {
      PairAt(s, first, second, j);
      assert s[j] == b[j - 2];
      assert s[j + 1] == if j + 1 < |b| + 2 then b[j - 1] else first;
    }
  }

  lemma PairMissing(open: string, b: string, first: char, second: char)
    requires |open| == 2 && Without(b, first, second)
    ensures IndexOf(open + b, [first, second], 2) == -1
  {
    forall j: nat | 2 <= j
      ensures !OccursAt(open + b, [first, second], j)
    {
      PairAt(open + b, first, second, j);
      if j + 2 <= |open + b| {
        assert (open + b)[j] == b[j - 2] && (open + b)[j + 1] == b[j - 1];
      }
    }
  }

  lemma LineCommentToken(b: string, rest: string)
    requires '\n' !in b
    ensures Stripped(['-', '-'] + b + ['\n'] + rest) == Stripped(['\n'] + rest)
    ensures Stripped(['-', '-'] + b) == ""
  {
    var open := ['-', '-'] + b;
    CharFound(open, '\n', 0, rest);
    var s := open + ['\n'] + rest;
    assert s == open + (['\n'] + rest) && s[..|open|] == open && Begins(s, '-', '-');
    ClosedToken(s, LineComment(open), ['\n'] + rest);
    OpenTail(open);
  }

  lemma BlockCommentToken(b: string, rest: string)
    requires Without(b, '*', '/')
    ensures Stripped(['/', '*'] + b + ['*', '/'] + rest) == [' '] + Stripped(rest)
    ensures Stripped(['/', '*'] + b) == ""
  {
    var open, s := ['/', '*'] + b, ['/', '*'] + b + ['*', '/'] + rest;
    PairFoundAfter(['/', '*'], b, '*', '/', rest);
    PairMissing(['/', '*'], b, '*', '/');
    assert s[..|open| + 2] == open + ['*', '/'] && Begins(s, '/', '*');
    ClosedToken(s, BlockComment(open + ['*', '/']), rest);
    OpenTail(open);
  }

  lemma QuotedToken(b: string, rest: string)
    requires '\'' !in b
    ensures Stripped(['\''] + b + ['\''] + rest) == ['\''] + b + ['\''] + Stripped(rest)
    ensures Stripped(['\''] + b) == ""
  {
    var open := ['\''] + b;
    CharFound(open, '\'', 1, rest);
    var s := open + ['\''] + rest;
    assert s[..|open| + 1] == open + ['\''] && s[0] == '\'';
    ClosedToken(s, Quoted(open + ['\'']), rest);
    OpenTail(open);
  }

  lemma DollarToken(b: string, rest: string)
    requires Without(b, '$', '$')
    ensures b == "" || b[|b| - 1] != '$' ==>
              Stripped(['$', '$'] + b + ['$', '$'] + rest) == ['$', '$'] + b + ['$', '$'] + Stripped(rest)
    ensures Stripped(['$', '$'] + b) == ""
  {
    var open, s := ['$', '$'] + b, ['$', '$'] + b + ['$', '$'] + rest;
    if b == "" || b[|b| - 1] != '$' {
      PairFoundAfter(['$', '$'], b, '$', '$', rest);
      assert s[..|open| + 2] == open + ['$', '$'] && Begins(s, '$', '$');
      ClosedToken(s, Dollar(open + ['$', '$']), rest);
    }
    PairMissing(['$', '$'], b, '$', '$');
    OpenTail(open);
  }

  /** After calm text, a line comment goes and its newline stays; without a newline the rest of the text goes. */
  lemma LineCommentGoes(a: string, b: string, c: string)
    requires Calm(a) && '\n' !in b
    ensures Stripped(a + ("--" + b + "\n" + c)) == a + Stripped("\n" + c)
    ensures Stripped(a + ("--" + b)) == a
  {
    CalmKept(a, "--" + b + "\n" + c);
    CalmKept(a, "--" + b);
    LineCommentToken(b, c);
  }

  /** A block comment becomes a blank; one that is not closed takes the rest of the text with it. */
  lemma BlockCommentIsBlank(a: string, b: string, c: string)
    requires Calm(a) && Without(b, '*', '/')
    ensures Stripped(a + ("/*" + b + "*/" + c)) == a + (" " + Stripped(c))
    ensures Stripped(a + ("/*" + b)) == a
  {
    CalmKept(a, "/*" + b + "*/" + c);
    CalmKept(a, "/*" + b);
    BlockCommentToken(b, c);
  }

  /** A quoted text is copied up to its next quote, whatever it holds; one that is not closed goes with the rest. */
  lemma QuotedStays(a: string, b: string, c: string)
    requires Calm(a) && '\'' !in b
    ensures Stripped(a + ("'" + b + "'" + c)) == a + ("'" + b + "'" + Stripped(c))
    ensures Stripped(a + ("'" + b)) == a
  {
    CalmKept(a, "'" + b + "'" + c);
    CalmKept(a, "'" + b);
    QuotedToken(b, c);
  }

  /** A dollar-quoted text likewise, up to the first two dollars after its opening ones. */
  lemma DollarStays(a: string, b: string, c: string)
    requires Calm(a) && Without(b, '$', '$')
    ensures b == "" || b[|b| - 1] != '$' ==> Stripped(a + ("$$" + b + "$$" + c)) == a + ("$$" + b + "$$" + Stripped(c))
    ensures Stripped(a + ("$$" + b)) == a
  {
    CalmKept(a, "$$" + b + "$$" + c);
    CalmKept(a, "$$" + b);
    DollarToken(b, c);
  }

  /** A dash, slash or dollar that begins nothing stays; with the laws above this fixes the result for every text. */
  lemma LoneMarkStays(a: string, c: char, rest: string)
    requires Calm(a) && BeginsNothing(c, rest)
    ensures Stripped(a + ([c] + rest)) == a + ([c] + Stripped(rest))
  {
    CalmKept(a, [c] + rest);
    OnePlain(c, rest);
  }

  // ── Parentheses ───────────────────────────────────────────────────────────

  function Weight(c: char): int {
    if c == '(' then 1 else if c == ')' then -1 else 0
  }

  function Depth(s: string): int {
    if s == "" then 0 else Depth(s[..|s| - 1]) + Weight(s[|s| - 1])
  }

  predicate NeverNegative(s: string) {
    forall k :: 0 <= k <= |s| ==> Depth(s[..k]) >= 0
  }

  predicate Balanced(s: string) {
    Depth(s) == 0 && NeverNegative(s)
  }

  /** Depth counts parentheses: a text is balanced when they are as many, and no prefix closes more than it opens. */
  lemma {:induction false} DepthCounts(s: string)
    ensures Depth(s) == multiset(s)['('] as int - multiset(s)[')'] as int
  {
    if s != "" {
      DepthCounts(s[..|s| - 1]);
      assert s == s[..|s| - 1] + [s[|s| - 1]];
    }
  }

  lemma BalancedByCount(s: string)
    ensures Balanced(s) <==>
              && multiset(s)['('] == multiset(s)[')']
              && forall k :: 0 <= k <= |s| ==> multiset(s[..k])['('] >= multiset(s[..k])[')']
  {
    DepthCounts(s);
    forall k | 0 <= k <= |s|
      ensures Depth(s[..k]) == multiset(s[..k])['('] as int - multiset(s[..k])[')'] as int
    {
      DepthCounts(s[..k]);
    }
  }

  /** A balanced body from `start` that is closed by the parenthesis at `j`. */
  predicate ClosedAt(sql: string, start: nat, j: nat) {
    start <= j < |sql| && sql[j] == ')' && Balanced(sql[start..j])
  }

  lemma DepthSnoc(s: string, c: char)
    ensures Depth(s + [c]) == Depth(s) + Weight(c)
  {
    assert (s + [c])[..|s|] == s;
  }

  lemma NeverNegativeSnoc(s: string, c: char)
    requires NeverNegative(s) && Depth(s) + Weight(c) >= 0
    ensures NeverNegative(s + [c])
  {
    DepthSnoc(s, c);
    forall k | 0 <= k <= |s + [c]|
      ensures Depth((s + [c])[..k]) >= 0
    {
      if k <= |s| {
        assert (s + [c])[..k] == s[..k];
      } else {
        assert (s + [c])[..k] == s + [c];
      }
    }
  }

  /** After looking at `sql[start..i]`: still inside a body, or just past its closing parenthesis. */
  ghost predicate ScanState(sql: string, start: nat, i: nat, depth: int) {
    && start <= i <= |sql|
    && depth == 1 + Depth(sql[start..i])
    && (depth > 0 ==> NeverNegative(sql[start..i]))
    && (depth <= 0 ==> i > start && depth == 0 && ClosedAt(sql, start, i - 1))
  }

  lemma ScanStep(sql: string, start: nat, i: nat, depth: int)
    requires ScanState(sql, start, i, depth) && depth > 0 && i < |sql|
    ensures ScanState(sql, start, i + 1, depth + Weight(sql[i]))
  {
    DepthSnoc(sql[start..i], sql[i]);
    assert sql[start..i] + [sql[i]] == sql[start..i + 1];
    if depth + Weight(sql[i]) > 0 {
      NeverNegativeSnoc(sql[start..i], sql[i]);
    }
  }

  lemma ScanDone(sql: string, start: nat, i: nat, depth: int, j: nat)
    requires ScanState(sql, start, i, depth) && (i == |sql| || depth <= 0) && ClosedAt(sql, start, j)
    ensures i > start && j == i - 1
  {
    if depth > 0 {
      CloseGoesNegative(sql, start, j, i);
    } else {
      ClosedOnce(sql, start, i - 1, j);
    }
  }

  /** The scan after `CREATE TABLE name (`; an unclosed body loses its last character. */
  method ScanBody(sql: string, start: nat) returns (body: string)
    requires start <= |sql|
    ensures forall j: nat :: ClosedAt(sql, start, j) ==> body == sql[start..j]
    ensures (forall j: nat :: !ClosedAt(sql, start, j)) ==>
              body == if start < |sql| then sql[start..|sql| - 1] else ""
  {
    var depth := 1;
    var i := start;
    assert sql[start..start] == "";
    while i < |sql| && depth > 0
      invariant ScanState(sql, start, i, depth)
    {
      ScanStep(sql, start, i, depth);
      if sql[i] == '(' {
        depth := depth + 1;
      } else if sql[i] == ')' {
        depth := depth - 1;
      }
      i := i + 1;
    }
    forall j: nat | ClosedAt(sql, start, j)
      ensures i > start && j == i - 1
    {
      ScanDone(sql, start, i, depth, j);
    }
    body := if i - 1 < start then "" else sql[start..i - 1];
  }

  lemma CloseGoesNegative(sql: string, start: nat, j: nat, i: nat)
    requires ClosedAt(sql, start, j) && j < i <= |sql|
    ensures !NeverNegative(sql[start..i])
  {
    DepthSnoc(sql[start..j], ')');
    assert sql[start..i][..j + 1 - start] == sql[start..j] + [')'];
  }

  /** The closing parenthesis is unique, so the body found is the shortest and the only one. */
  lemma ClosedOnce(sql: string, start: nat, i: nat, j: nat)
    requires ClosedAt(sql, start, i) && ClosedAt(sql, start, j)
    ensures i == j
  {
    if i < j {
      CloseGoesNegative(sql, start, i, j);
    } else if j < i {
      CloseGoesNegative(sql, start, j, i);
    }
  }

  // ── Top-level commas ──────────────────────────────────────────────────────

  function Join(parts: seq<string>): string
    requires parts != []
  {
    if |parts| == 1 then parts[0] else parts[0] + "," + Join(parts[1..])
  }

  predicate NoTopLevelComma(part: string) {
    forall k :: 0 <= k < |part| && part[k] == ',' ==> Depth(part[..k]) != 0
  }

  /** `parts` cuts `body` at commas of depth zero, and at all of them. */
  predicate IsSplit(parts: seq<string>, body: string) {
    && parts != [] && Join(parts) == body
    && (forall k :: 0 <= k < |parts| ==> NoTopLevelComma(parts[k]))
    && (forall k :: 0 <= k < |parts| - 1 ==> Depth(parts[k]) == 0)
  }

  lemma {:induction false} JoinSnoc(parts: seq<string>, cur: string, next: string)
    ensures Join(parts + [cur] + [next]) == Join(parts + [cur]) + "," + next
    decreases |parts|
  {
    if parts == [] {
      assert Join([cur] + [next]) == cur + "," + Join([next]);
      assert [] + [cur] + [next] == [cur] + [next] && [] + [cur] == [cur];
    } else {
      JoinSnoc(parts[1..], cur, next);
      assert (parts + [cur] + [next])[1..] == parts[1..] + [cur] + [next];
      assert (parts + [cur])[1..] == parts[1..] + [cur];
    }
  }

  lemma {:induction false} JoinGrow(parts: seq<string>, cur: string, more: string)
    ensures Join(parts + [cur + more]) == Join(parts + [cur]) + more
    decreases |parts|
  {
    if parts != [] {
      JoinGrow(parts[1..], cur, more);
      assert (parts + [cur + more])[1..] == parts[1..] + [cur + more];
      assert (parts + [cur])[1..] == parts[1..] + [cur];
    }
  }

  lemma CutHere(parts: seq<string>, cur: string, done: string)
    requires IsSplit(parts + [cur], done) && Depth(cur) == 0
    ensures IsSplit(parts + [cur] + [""], done + [','])
  {
    JoinSnoc(parts, cur, "");
    var parts' := parts + [cur] + [""];
    assert forall k :: 0 <= k <= |parts| ==> parts'[k] == (parts + [cur])[k];
  }

  lemma GrowHere(parts: seq<string>, cur: string, ch: char, done: string)
    requires IsSplit(parts + [cur], done) && (ch == ',' ==> Depth(cur) != 0)
    ensures IsSplit(parts + [cur + [ch]], done + [ch])
  {
    JoinGrow(parts, cur, [ch]);
    var was, now := parts + [cur], parts + [cur + [ch]];
    assert forall k :: 0 <= k < |parts| ==> now[k] == was[k];
    assert NoTopLevelComma(was[|parts|]);
    assert forall k :: 0 <= k <= |cur| ==> (cur + [ch])[..k] == cur[..k];
    assert cur[..|cur|] == cur;
  }

  method SplitTopLevel(body: string) returns (parts: seq<string>)
    ensures IsSplit(parts, body)
  {
    var d := 0;
    var cur := "";
    parts := [];
    for i := 0 to |body|
      invariant d == Depth(cur)
      invariant IsSplit(parts + [cur], body[..i])
    {
      var ch := body[i];
      assert body[..i + 1] == body[..i] + [ch];
      if ch == '(' {
        d := d + 1;
      }
      if ch == ')' {
        d := d - 1;
      }
      if ch == ',' && d == 0 {
        CutHere(parts, cur, body[..i]);
        parts := parts + [cur];
        cur := "";
      } else {
        GrowHere(parts, cur, ch, body[..i]);
        DepthSnoc(cur, ch);
        cur := cur + [ch];
      }
    }
    assert body[..|body|] == body;
    parts := parts + [cur];
  }

  /** The split is the only one. */
  lemma {:induction false} SplitIsUnique(p: seq<string>, q: seq<string>, body: string)
    requires IsSplit(p, body) && IsSplit(q, body)
    ensures p == q
    decreases |p|
  {
    FirstNoLonger(p, q, body);
    FirstNoLonger(q, p, body);
    if |p| > 1 && |q| > 1 {
      assert Join(p[1..]) == body[|p[0]| + 1..];
      assert Join(q[1..]) == body[|q[0]| + 1..];
      SplitIsUnique(p[1..], q[1..], Join(p[1..]));
      assert p == [p[0]] + p[1..] && q == [q[0]] + q[1..];
    }
  }

  lemma FirstNoLonger(p: seq<string>, q: seq<string>, body: string)
    requires IsSplit(p, body) && IsSplit(q, body)
    ensures |q[0]| <= |p[0]| && p[0] <= body && (|p[0]| == |q[0]| ==> p[0] == q[0])
  {
    assert p[0] <= body && q[0] <= body;
    assert q[0] == body[..|q[0]|] && p[0] == body[..|p[0]|];
    assert |p| > 1 ==> body[|p[0]|] == ',';
    CommaBounds(p[0], q[0], body);
  }

  lemma CommaBounds(head: string, other: string, body: string)
    requires head <= body && other <= body && NoTopLevelComma(other)
    requires |head| < |body| ==> body[|head|] == ',' && Depth(head) == 0
    ensures |other| <= |head|
  {
    var k := if |head| < |other| then |head| else |other|;
    assert other[..k] == head[..k];
    assert head[..|head|] == head;
  }

  lemma DepthAfterComma(head: string, rest: string, body: string, k: nat)
    requires body == head + [','] + rest && k <= |rest|
    ensures Depth(body[..|head| + 1 + k]) == Depth(head) + Depth(rest[..k])
  {
    assert body[..|head| + 1 + k] == head + [','] + rest[..k];
    DepthSnoc(head, ',');
    DepthConcat(head + [','], rest[..k]);
  }

  lemma HeadAndRestBalanced(head: string, rest: string, body: string)
    requires body == head + [','] + rest && Depth(head) == 0 && Balanced(body)
    ensures Balanced(head) && Balanced(rest)
  {
    assert forall k :: 0 <= k <= |head| ==> body[..k] == head[..k];
    forall k | 0 <= k <= |rest|
      ensures Depth(rest[..k]) == Depth(body[..|head| + 1 + k])
    {
      DepthAfterComma(head, rest, body, k);
    }
    assert head[..|head|] == head;
    assert body[..|head| + 1 + |rest|] == body && rest[..|rest|] == rest;
  }

  /** Of a balanced body every part is balanced. */
  lemma {:induction false} PartsAreBalanced(parts: seq<string>, body: string)
    requires IsSplit(parts, body) && Balanced(body)
    ensures forall k :: 0 <= k < |parts| ==> Balanced(parts[k])
    decreases |parts|
  {
    if |parts| > 1 {
      var rest := Join(parts[1..]);
      HeadAndRestBalanced(parts[0], rest, body);
      PartsAreBalanced(parts[1..], rest);
    }
  }

  lemma {:induction false} DepthConcat(a: string, b: string)
    ensures Depth(a + b) == Depth(a) + Depth(b)
    decreases |b|
  {
    if b == "" {
      assert a + b == a;
    } else {
      DepthConcat(a, b[..|b| - 1]);
      assert (a + b)[..|a + b| - 1] == a + b[..|b| - 1];
    }
  }
}
