/**
 The lexer's rules seen from outside: where scripts built from quotes, comments, dollar quotes and
 plain characters are cut, and what that makes of their statements.
 */
module SqlConstructs {
  import opened SqlLexer
  import opened Splitter

  function AllCuts(letters: Letters, text: string): seq<nat> {
    Cuts(letters, text, |text|)
  }

  function Shifted(cuts: seq<nat>, offset: nat): (shifted: seq<nat>)
    ensures |shifted| == |cuts|
  {
    seq(|cuts|, i requires 0 <= i < |cuts| => cuts[i] + offset)
  }

  /** Whatever follows is cut as if it stood alone. */
  ghost predicate Closed(letters: Letters, text: string) {
    forall tail :: AllCuts(letters, text + tail) == AllCuts(letters, text) + Shifted(AllCuts(letters, tail), |text|)
  }

  /** Has no cut of its own, and changes no other. */
  ghost predicate Inert(letters: Letters, text: string) {
    Closed(letters, text) && AllCuts(letters, text) == []
  }

  // ---- reading from any state ----

  function Read(letters: Letters, l: Lexer, text: string): Lexer {
    if text == "" then l else Step(letters, Read(letters, l, text[..|text| - 1]), text[|text| - 1])
  }

  function CutsFrom(letters: Letters, l: Lexer, text: string): seq<nat> {
    if text == "" then []
    else
      var n := |text| - 1;
      CutsFrom(letters, l, text[..n]) + if text[n] == ';' && TopLevel(Read(letters, l, text[..n])) then [n] else []
  }

  lemma {:induction false} ScanIsRead(letters: Letters, text: string, n: nat)
    requires n <= |text|
    ensures Scan(letters, text, n) == Read(letters, Top, text[..n])
    ensures Cuts(letters, text, n) == CutsFrom(letters, Top, text[..n])
  {
    if n > 0 {
      ScanIsRead(letters, text, n - 1);
      assert text[..n][..n - 1] == text[..n - 1];
    }
  }

  lemma AllCutsFromTop(letters: Letters, text: string)
    ensures AllCuts(letters, text) == CutsFrom(letters, Top, text)
  {
    ScanIsRead(letters, text, |text|);
    assert text[..|text|] == text;
  }

  lemma Regroup<T>(a: seq<T>, b: seq<T>, c: seq<T>)
    ensures (a + b) + c == a + (b + c)
  {
  }

  lemma ShiftedBoth(a: seq<nat>, b: seq<nat>, m: nat, n: nat)
    ensures Shifted(a + b, n) == Shifted(a, n) + Shifted(b, n)
    ensures Shifted(Shifted(a, m), n) == Shifted(a, m + n)
  {
  }

  lemma {:induction false} ReadOn(letters: Letters, l: Lexer, a: string, b: string)
    ensures Read(letters, l, a + b) == Read(letters, Read(letters, l, a), b)
  {
    if b == "" {
      assert a + b == a;
    } else {
      hide Step;
      var n := |b| - 1;
      assert (a + b)[..|a + b| - 1] == a + b[..n];
      ReadOn(letters, l, a, b[..n]);
    }
  }

  function CutAfter(letters: Letters, l: Lexer, text: string, c: char): seq<nat> {
    if c == ';' && TopLevel(Read(letters, l, text)) then [|text|] else []
  }

  lemma OneMoreCutFrom(letters: Letters, l: Lexer, text: string, c: char)
    ensures CutsFrom(letters, l, text + [c]) == CutsFrom(letters, l, text) + CutAfter(letters, l, text, c)
  {
    assert (text + [c])[..|text|] == text;
  }

  lemma OneMoreOnBoth(letters: Letters, l: Lexer, a: string, first: string, c: char)
    requires CutsFrom(letters, l, a + first) == CutsFrom(letters, l, a) + Shifted(CutsFrom(letters, Read(letters, l, a), first), |a|)
    ensures CutsFrom(letters, l, (a + first) + [c])
         == CutsFrom(letters, l, a) + Shifted(CutsFrom(letters, Read(letters, l, a), first + [c]), |a|)
  {
    var m := Read(letters, l, a);
    var cuts, more := CutsFrom(letters, m, first), CutAfter(letters, m, first, c);
    ReadOn(letters, l, a, first);
    assert CutAfter(letters, l, a + first, c) == Shifted(more, |a|);
    hide *;
    OneMoreCutFrom(letters, l, a + first, c);
    OneMoreCutFrom(letters, m, first, c);
    ShiftedBoth(cuts, more, 0, |a|);
    Regroup(CutsFrom(letters, l, a), Shifted(cuts, |a|), Shifted(more, |a|));
  }

  lemma {:induction false} CutsOn(letters: Letters, l: Lexer, a: string, b: string)
    ensures CutsFrom(letters, l, a + b) == CutsFrom(letters, l, a) + Shifted(CutsFrom(letters, Read(letters, l, a), b), |a|)
  {
    if b == "" {
      assert a + b == a && CutsFrom(letters, Read(letters, l, a), b) == [];
    } else {
      hide *;
      var first, last := b[..|b| - 1], b[|b| - 1];
      assert b == first + [last];
      CutsOn(letters, l, a, first);
      OneMoreOnBoth(letters, l, a, first, last);
      Regroup(a, first, [last]);
    }
  }

  lemma ReadBoth(letters: Letters, l: Lexer, a: string, b: string)
    ensures Read(letters, l, a + b) == Read(letters, Read(letters, l, a), b)
    ensures CutsFrom(letters, l, a + b) == CutsFrom(letters, l, a) + Shifted(CutsFrom(letters, Read(letters, l, a), b), |a|)
  {
    hide *;
    ReadOn(letters, l, a, b);
    CutsOn(letters, l, a, b);
  }

  /** Read from one state to another without a cut. */
  ghost predicate Quiet(letters: Letters, l: Lexer, text: string, m: Lexer) {
    Read(letters, l, text) == m && CutsFrom(letters, l, text) == []
  }

  lemma QuietBoth(letters: Letters, l: Lexer, a: string, m: Lexer, b: string, n: Lexer)
    requires Quiet(letters, l, a, m) && Quiet(letters, m, b, n)
    ensures Quiet(letters, l, a + b, n)
  {
    ReadBoth(letters, l, a, b);
  }

  lemma QuietStep(letters: Letters, l: Lexer, c: char)
    requires c == ';' ==> !TopLevel(l)
    ensures Quiet(letters, l, [c], Step(letters, l, c))
  {
    assert [c][..0] == "";
    assert Read(letters, l, "") == l && CutsFrom(letters, l, "") == [];
  }

  lemma TopIsClosed(letters: Letters, text: string)
    requires Read(letters, Top, text) == Top
    ensures Closed(letters, text)
  {
    forall tail ensures AllCuts(letters, text + tail) == AllCuts(letters, text) + Shifted(AllCuts(letters, tail), |text|) {
      AllCutsFromTop(letters, text + tail);
      AllCutsFromTop(letters, text);
      AllCutsFromTop(letters, tail);
      ReadBoth(letters, Top, text, tail);
    }
  }

  lemma QuietIsInert(letters: Letters, text: string)
    requires Quiet(letters, Top, text, Top)
    ensures Inert(letters, text)
  {
    TopIsClosed(letters, text);
    AllCutsFromTop(letters, text);
  }

  // ---- closed texts compose ----

  lemma ClosedBoth(letters: Letters, a: string, b: string)
    requires Closed(letters, a) && Closed(letters, b)
    ensures Closed(letters, a + b)
    ensures AllCuts(letters, a + b) == AllCuts(letters, a) + Shifted(AllCuts(letters, b), |a|)
  {
    forall tail ensures AllCuts(letters, a + b + tail) == AllCuts(letters, a + b) + Shifted(AllCuts(letters, tail), |a + b|) {
      assert a + b + tail == a + (b + tail);
      ShiftedBoth(AllCuts(letters, b), Shifted(AllCuts(letters, tail), |b|), 0, |a|);
      ShiftedBoth(AllCuts(letters, tail), [], |b|, |a|);
    }
  }

  // ---- quotes ----

  lemma {:induction false} InsideQuote(letters: Letters, q: char, body: string)
    requires q !in body
    ensures Quiet(letters, Quote(q), body, Quote(q))
  {
    if body != "" {
      InsideQuote(letters, q, body[..|body| - 1]);
    }
  }

  /** From a quote to the next one of its kind. */
  lemma QuotedIsInert(letters: Letters, q: char, body: string)
    requires (q == '\'' || q == '"') && q !in body
    ensures Inert(letters, [q] + body + [q])
  {
    QuietStep(letters, Top, q);
    InsideQuote(letters, q, body);
    QuietStep(letters, Quote(q), q);
    QuietBoth(letters, Top, [q], Quote(q), body, Quote(q));
    QuietBoth(letters, Top, [q] + body, Quote(q), [q], Top);
    QuietIsInert(letters, [q] + body + [q]);
  }

  /** A doubled quote does not end the quotation. */
  lemma DoubledQuoteIsInert(letters: Letters, q: char, a: string, b: string)
    requires (q == '\'' || q == '"') && q !in a && q !in b
    ensures Inert(letters, [q] + a + [q, q] + b + [q])
  {
    QuotedIsInert(letters, q, a);
    QuotedIsInert(letters, q, b);
    ClosedBoth(letters, [q] + a + [q], [q] + b + [q]);
    assert [q] + a + [q, q] + b + [q] == ([q] + a + [q]) + ([q] + b + [q]);
  }

  /** An open quote swallows the rest. */
  lemma OpenQuoteHasNoCut(letters: Letters, q: char, body: string)
    requires (q == '\'' || q == '"') && q !in body
    ensures AllCuts(letters, [q] + body) == []
  {
    QuietStep(letters, Top, q);
    InsideQuote(letters, q, body);
    QuietBoth(letters, Top, [q], Quote(q), body, Quote(q));
    AllCutsFromTop(letters, [q] + body);
  }

  // ---- line comments ----

  lemma {:induction false} InsideLine(letters: Letters, body: string)
    requires '\n' !in body
    ensures Quiet(letters, LineComment, body, LineComment)
  {
    if body != "" {
      InsideLine(letters, body[..|body| - 1]);
    }
  }

  lemma LineOpens(letters: Letters, body: string)
    requires '\n' !in body
    ensures Quiet(letters, Top, "--" + body, LineComment)
  {
    QuietStep(letters, Top, '-');
    QuietStep(letters, Dash, '-');
    QuietBoth(letters, Top, "-", Dash, "-", LineComment);
    assert "-" + "-" == "--";
    InsideLine(letters, body);
    QuietBoth(letters, Top, "--", LineComment, body, LineComment);
  }

  /** From `--` to the end of the line. */
  lemma LineCommentIsInert(letters: Letters, body: string)
    requires '\n' !in body
    ensures Inert(letters, "--" + body + "\n")
    ensures AllCuts(letters, "--" + body) == []
  {
    LineOpens(letters, body);
    QuietStep(letters, LineComment, '\n');
    QuietBoth(letters, Top, "--" + body, LineComment, "\n", Top);
    QuietIsInert(letters, "--" + body + "\n");
    AllCutsFromTop(letters, "--" + body);
  }

  // ---- block comments ----

  /** The inside of a block comment: characters and comments within it. */
  datatype Note = End | Text(c: char, rest: Note) | Nested(inner: Note, rest: Note)

  function Written(note: Note): string {
    match note
    case End => ""
    case Text(c, rest) => [c] + Written(rest)
    case Nested(inner, rest) => "/*" + Written(inner) + "*/" + Written(rest)
  }

  /** The first character of a note or of the `*` that closes it. */
  function Opening(note: Note): char {
    match note
    case End => '*'
    case Text(c, _) => c
    case Nested(_, _) => '/'
  }

  /** No plain character joins the one after it to open or close a comment. */
  predicate PlainNote(note: Note) {
    match note
    case End => true
    case Text(c, rest) => !(c == '/' && Opening(rest) == '*') && !(c == '*' && Opening(rest) == '/') && PlainNote(rest)
    case Nested(inner, rest) => PlainNote(inner) && PlainNote(rest)
  }

  predicate Fits(half: Half, c: char) {
    !(half == Star && c == '/') && !(half == Stroke && c == '*')
  }

  function Outside(depth: nat): Lexer {
    if depth <= 1 then Top else Block(depth - 1, Neither)
  }

  lemma ClosesBlock(letters: Letters, depth: nat, half: Half)
    requires half != Stroke
    ensures Quiet(letters, Block(depth, half), "*/", Outside(depth))
  {
    QuietStep(letters, Block(depth, half), '*');
    QuietStep(letters, Block(depth, Star), '/');
    QuietBoth(letters, Block(depth, half), "*", Block(depth, Star), "/", Outside(depth));
    assert "*" + "/" == "*/";
  }

  lemma OpensBlock(letters: Letters, depth: nat, half: Half)
    requires half != Star
    ensures Quiet(letters, Block(depth, half), "/*", Block(depth + 1, Neither))
  {
    QuietStep(letters, Block(depth, half), '/');
    QuietStep(letters, Block(depth, Stroke), '*');
    QuietBoth(letters, Block(depth, half), "/", Block(depth, Stroke), "*", Block(depth + 1, Neither));
    assert "/" + "*" == "/*";
  }

  /** A note is read from wherever nothing is half read that it would complete, to where nothing
      is half read that a closing `*` would. */
  lemma {:induction false} NoteIsRead(letters: Letters, note: Note, depth: nat, half: Half) returns (after: Half)
    requires PlainNote(note) && depth > 0 && Fits(half, Opening(note))
    ensures Quiet(letters, Block(depth, half), Written(note), Block(depth, after)) && after != Stroke
    decreases note
  {
    match note
    case End =>
      after := half;
    case Text(c, rest) =>
      QuietStep(letters, Block(depth, half), c);
      var next := if c == '*' then Star else if c == '/' then Stroke else Neither;
      after := NoteIsRead(letters, rest, depth, next);
      QuietBoth(letters, Block(depth, half), [c], Block(depth, next), Written(rest), Block(depth, after));
    case Nested(inner, rest) =>
      var inside, here := Block(depth + 1, Neither), Block(depth, half);
      OpensBlock(letters, depth, half);
      var deep := NoteIsRead(letters, inner, depth + 1, Neither);
      QuietBoth(letters, here, "/*", inside, Written(inner), Block(depth + 1, deep));
      ClosesBlock(letters, depth + 1, deep);
      QuietBoth(letters, here, "/*" + Written(inner), Block(depth + 1, deep), "*/", Block(depth, Neither));
      after := NoteIsRead(letters, rest, depth, Neither);
      QuietBoth(letters, here, "/*" + Written(inner) + "*/", Block(depth, Neither), Written(rest), Block(depth, after));
  }

  /** From `/*` to the `*/` that matches it. */
  lemma BlockCommentIsInert(letters: Letters, note: Note)
    requires PlainNote(note)
    ensures Inert(letters, "/*" + Written(note) + "*/")
    ensures AllCuts(letters, "/*" + Written(note)) == []
  {
    QuietStep(letters, Top, '/');
    QuietStep(letters, Slash, '*');
    QuietBoth(letters, Top, "/", Slash, "*", Block(1, Neither));
    assert "/" + "*" == "/*";
    var after := NoteIsRead(letters, note, 1, Neither);
    QuietBoth(letters, Top, "/*", Block(1, Neither), Written(note), Block(1, after));
    AllCutsFromTop(letters, "/*" + Written(note));
    ClosesBlock(letters, 1, after);
    QuietBoth(letters, Top, "/*" + Written(note), Block(1, after), "*/", Top);
    QuietIsInert(letters, "/*" + Written(note) + "*/");
  }

  // ---- dollar quotes ----

  lemma {:induction false} TagIsRead(letters: Letters, tag: string)
    requires AllWords(letters, tag)
    ensures Quiet(letters, Tag(""), tag, Tag(tag))
  {
    if tag != "" {
      var n := |tag| - 1;
      assert tag[..n] + [tag[n]] == tag;
      TagIsRead(letters, tag[..n]);
      QuietStep(letters, Tag(tag[..n]), tag[n]);
      QuietBoth(letters, Tag(""), tag[..n], Tag(tag[..n]), [tag[n]], Tag(tag));
    }
  }

  lemma DollarOpens(letters: Letters, tag: string)
    requires AllWords(letters, tag)
    ensures Quiet(letters, Top, "$" + tag + "$", Dollar("$" + tag + "$", ""))
  {
    QuietStep(letters, Top, '$');
    TagIsRead(letters, tag);
    QuietStep(letters, Tag(tag), '$');
    QuietBoth(letters, Top, "$", Tag(""), tag, Tag(tag));
    QuietBoth(letters, Top, "$" + tag, Tag(tag), "$", Dollar("$" + tag + "$", ""));
  }

  /** The delimiter does not end before the `n`th character. */
  ghost predicate NotYet(text: string, delim: string, n: nat) {
    forall k {:trigger OccursAt(text, k, delim)} :: 0 <= k && k + |delim| <= n ==> !OccursAt(text, k, delim)
  }

  lemma EndsIfItOccurs(text: string, delim: string, n: nat)
    requires n <= |text|
    ensures EndsWith(text[..n], delim) <==> |delim| <= n && OccursAt(text, n - |delim|, delim)
  {
    if |delim| <= n {
      assert text[..n][n - |delim|..] == text[n - |delim|..n - |delim| + |delim|];
    }
  }

  lemma {:induction false} InsideDollar(letters: Letters, delim: string, text: string, n: nat)
    requires n <= |text| && NotYet(text, delim, n)
    ensures Quiet(letters, Dollar(delim, ""), text[..n], Dollar(delim, text[..n]))
  {
    if n == 0 {
      assert text[..n] == "";
    } else {
      var before, c := text[..n - 1], text[n - 1];
      assert before + [c] == text[..n];
      InsideDollar(letters, delim, text, n - 1);
      EndsIfItOccurs(text, delim, n);
      QuietStep(letters, Dollar(delim, before), c);
      QuietBoth(letters, Dollar(delim, ""), before, Dollar(delim, before), [c], Dollar(delim, text[..n]));
    }
  }

  /** The delimiter first occurs right after the body. */
  ghost predicate DelimiterEnds(body: string, delim: string) {
    forall k :: 0 <= k < |body| ==> !OccursAt(body + delim, k, delim)
  }

  lemma DollarCloses(letters: Letters, delim: string, body: string)
    requires delim != "" && DelimiterEnds(body, delim)
    ensures Quiet(letters, Dollar(delim, ""), body + delim, Top)
  {
    var text, n := body + delim, |body| + |delim| - 1;
    var before, c := text[..n], text[n];
    assert NotYet(text, delim, n);
    EndsIfItOccurs(text, delim, n + 1);
    assert before + [c] == text == text[..n + 1];
    assert OccursAt(text, |body|, delim);
    assert Step(letters, Dollar(delim, before), c) == Top;
    hide Step, EndsWith, OccursAt, NotYet, DelimiterEnds, Quiet;
    InsideDollar(letters, delim, text, n);
    QuietStep(letters, Dollar(delim, before), c);
    QuietBoth(letters, Dollar(delim, ""), before, Dollar(delim, before), [c], Top);
  }

  /** From `$tag$` to the next `$tag$`, whatever is between. */
  lemma DollarQuotedIsInert(letters: Letters, tag: string, body: string)
    requires AllWords(letters, tag) && DelimiterEnds(body, "$" + tag + "$")
    ensures Inert(letters, "$" + tag + "$" + body + "$" + tag + "$")
  {
    var delim := "$" + tag + "$";
    DollarOpens(letters, tag);
    DollarCloses(letters, delim, body);
    QuietBoth(letters, Top, delim, Dollar(delim, ""), body + delim, Top);
    assert delim + (body + delim) == "$" + tag + "$" + body + "$" + tag + "$";
    QuietIsInert(letters, delim + (body + delim));
  }

  lemma OpenDollarHasNoCut(letters: Letters, tag: string, body: string)
    requires AllWords(letters, tag) && NotYet(body, "$" + tag + "$", |body|)
    ensures AllCuts(letters, "$" + tag + "$" + body) == []
  {
    var delim := "$" + tag + "$";
    DollarOpens(letters, tag);
    InsideDollar(letters, delim, body, |body|);
    assert body[..|body|] == body;
    QuietBoth(letters, Top, delim, Dollar(delim, ""), body, Dollar(delim, body));
    AllCutsFromTop(letters, delim + body);
  }

  // ---- plain characters ----

  lemma FromEither(letters: Letters, l: Lexer, m: Lexer, text: string)
    requires text != "" ==> Step(letters, l, text[0]) == Step(letters, m, text[0]) && TopLevel(l) && TopLevel(m)
    ensures CutsFrom(letters, l, text) == CutsFrom(letters, m, text)
  {
    if text != "" {
      var first, rest := [text[0]], text[1..];
      assert text == first + rest;
      ReadBoth(letters, l, first, rest);
      ReadBoth(letters, m, first, rest);
      assert first[..0] == "";
    }
  }

  /** What follows a `$` is not a tag. */
  ghost predicate NoTagFollows(letters: Letters, text: string) {
    forall n :: 0 <= n < |text| && text[n] == '$' ==> !AllWords(letters, text[..n])
  }

  lemma NoTagOneLater(letters: Letters, text: string)
    requires text != "" && NoTagFollows(letters, text) && Word(letters, text[0])
    ensures NoTagFollows(letters, text[1..])
  {
    forall n | 0 <= n < |text[1..]| && text[1..][n] == '$' ensures !AllWords(letters, text[1..][..n]) {
      var k :| 0 <= k < n + 1 && !Word(letters, text[..n + 1][k]);
      assert text[1..][..n][k - 1] == text[k];
    }
  }

  lemma WordAfterDollar(letters: Letters, tag: string, c: char)
    requires Word(letters, c)
    ensures Quiet(letters, Tag(tag), [c], Tag(tag + [c])) && Quiet(letters, Top, [c], Top)
  {
    QuietStep(letters, Tag(tag), c);
    QuietStep(letters, Top, c);
  }

  lemma NoWordAfterDollar(letters: Letters, tag: string, text: string)
    requires text != "" && NoTagFollows(letters, text) && !Word(letters, text[0])
    ensures CutsFrom(letters, Tag(tag), text) == CutsFrom(letters, Top, text)
  {
    assert text[..0] == "" && text[0] != '$';
    FromEither(letters, Tag(tag), Top, text);
  }

  lemma {:induction false} AfterLoneDollar(letters: Letters, tag: string, text: string)
    requires NoTagFollows(letters, text)
    ensures CutsFrom(letters, Tag(tag), text) == CutsFrom(letters, Top, text)
    decreases |text|
  {
    if text != "" {
      hide NoTagFollows, CutsFrom, Read, Word, Step;
      if Word(letters, text[0]) {
        var first, rest := [text[0]], text[1..];
        assert text == first + rest;
        NoTagOneLater(letters, text);
        AfterLoneDollar(letters, tag + first, rest);
        WordAfterDollar(letters, tag, text[0]);
        ReadBoth(letters, Tag(tag), first, rest);
        ReadBoth(letters, Top, first, rest);
      } else {
        NoWordAfterDollar(letters, tag, text);
      }
    }
  }

  /** The character begins nothing that `rest` goes on with. */
  ghost predicate StaysPlain(letters: Letters, c: char, rest: string) {
    && c != '\'' && c != '"'
    && (c == '-' ==> rest == "" || rest[0] != '-')
    && (c == '/' ==> rest == "" || rest[0] != '*')
    && (c == '$' ==> NoTagFollows(letters, rest))
  }

  /** Such a character leaves what follows to be cut as if it stood alone, and is a cut itself
      exactly when it is a `;`. */
  lemma PlainCharacterCuts(letters: Letters, c: char, rest: string)
    requires StaysPlain(letters, c, rest)
    ensures AllCuts(letters, [c] + rest) == (if c == ';' then [0] else []) + Shifted(AllCuts(letters, rest), 1)
  {
    var first := [c];
    AllCutsFromTop(letters, first + rest);
    AllCutsFromTop(letters, rest);
    ReadBoth(letters, Top, first, rest);
    assert first[..0] == "" && Read(letters, Top, "") == Top && CutsFrom(letters, Top, "") == [];
    if c == '$' {
      AfterLoneDollar(letters, "", rest);
    } else {
      FromEither(letters, FromTop(c), Top, rest);
    }
  }

  // ---- whole scripts ----

  datatype Token =
    | Char(c: char)
    | Quoted(quote: char, body: string)
    | Line(body: string)
    | Comment(note: Note)
    | DollarQuoted(tag: string, body: string)

  /** How a script may end: with nothing open, or inside something that never closes. */
  datatype Ending = Nothing | InQuote(quote: char, body: string) | InLine(body: string) | InComment(note: Note) | InDollar(tag: string, body: string)

  function TokenText(token: Token): string {
    match token
    case Char(c) => [c]
    case Quoted(quote, body) => [quote] + body + [quote]
    case Line(body) => "--" + body + "\n"
    case Comment(note) => "/*" + Written(note) + "*/"
    case DollarQuoted(tag, body) => "$" + tag + "$" + body + "$" + tag + "$"
  }

  function EndingText(ending: Ending): string {
    match ending
    case Nothing => ""
    case InQuote(quote, body) => [quote] + body
    case InLine(body) => "--" + body
    case InComment(note) => "/*" + Written(note)
    case InDollar(tag, body) => "$" + tag + "$" + body
  }

  function Script(tokens: seq<Token>, ending: Ending): string {
    if tokens == [] then EndingText(ending) else TokenText(tokens[0]) + Script(tokens[1..], ending)
  }

  ghost predicate IsToken(letters: Letters, token: Token, rest: string) {
    match token
    case Char(c) => StaysPlain(letters, c, rest)
    case Quoted(quote, body) => (quote == '\'' || quote == '"') && quote !in body
    case Line(body) => '\n' !in body
    case Comment(note) => PlainNote(note)
    case DollarQuoted(tag, body) => AllWords(letters, tag) && DelimiterEnds(body, "$" + tag + "$")
  }

  ghost predicate IsEnding(letters: Letters, ending: Ending) {
    match ending
    case Nothing => true
    case InQuote(quote, body) => (quote == '\'' || quote == '"') && quote !in body
    case InLine(body) => '\n' !in body
    case InComment(note) => PlainNote(note)
    case InDollar(tag, body) => AllWords(letters, tag) && NotYet(body, "$" + tag + "$", |body|)
  }

  ghost predicate IsScript(letters: Letters, tokens: seq<Token>, ending: Ending) {
    if tokens == [] then IsEnding(letters, ending)
    else IsToken(letters, tokens[0], Script(tokens[1..], ending)) && IsScript(letters, tokens[1..], ending)
  }

  /** Where the semicolons are that stand for themselves. */
  function Semicolons(tokens: seq<Token>): seq<nat> {
    if tokens == [] then []
    else (if tokens[0] == Char(';') then [0] else []) + Shifted(Semicolons(tokens[1..]), |TokenText(tokens[0])|)
  }

  lemma TokenIsInert(letters: Letters, token: Token, rest: string)
    requires IsToken(letters, token, rest) && !token.Char?
    ensures Inert(letters, TokenText(token))
  {
    match token
    case Quoted(quote, body) => QuotedIsInert(letters, quote, body);
    case Line(body) => LineCommentIsInert(letters, body);
    case Comment(note) => BlockCommentIsInert(letters, note);
    case DollarQuoted(tag, body) => DollarQuotedIsInert(letters, tag, body);
  }

  lemma EndingHasNoCut(letters: Letters, ending: Ending)
    requires IsEnding(letters, ending)
    ensures AllCuts(letters, EndingText(ending)) == []
  {
    match ending
    case Nothing =>
    case InQuote(quote, body) => OpenQuoteHasNoCut(letters, quote, body);
    case InLine(body) => LineCommentIsInert(letters, body);
    case InComment(note) => BlockCommentIsInert(letters, note);
    case InDollar(tag, body) => OpenDollarHasNoCut(letters, tag, body);
  }

  /** A script is cut at the semicolons that are characters of their own, and nowhere inside quotes,
      dollar quotes or comments, closed or not. */
  lemma {:induction false} CutAtSemicolons(letters: Letters, tokens: seq<Token>, ending: Ending)
    requires IsScript(letters, tokens, ending)
    ensures AllCuts(letters, Script(tokens, ending)) == Semicolons(tokens)
  {
    if tokens == [] {
      EndingHasNoCut(letters, ending);
    } else {
      var token, rest := tokens[0], Script(tokens[1..], ending);
      CutAtSemicolons(letters, tokens[1..], ending);
      if token.Char? {
        PlainCharacterCuts(letters, token.c, rest);
      } else {
        TokenIsInert(letters, token, rest);
        assert AllCuts(letters, TokenText(token) + rest) == [] + Shifted(AllCuts(letters, rest), |TokenText(token)|);
      }
    }
  }

  // ---- from cuts to statements ----

  /** What is dropped around a statement is white space, and all of it. */
  lemma TrimKeepsTheMiddle(s: string) returns (left: string, right: string)
    ensures s == left + Trim(s) + right
    ensures forall i :: 0 <= i < |left| ==> Space(left[i])
    ensures forall i :: 0 <= i < |right| ==> Space(right[i])
    ensures Trim(s) != "" ==> !Space(Trim(s)[0]) && !Space(Trim(s)[|Trim(s)| - 1])
  {
    hide TrimStart, TrimEnd;
    var rest, middle := TrimStart(s), Trim(s);
    left, right := s[..|s| - |rest|], rest[|middle|..];
    assert s == left + rest && rest == middle + right;
  }

  lemma CutsAround(letters: Letters, a: string, b: string)
    requires |a| in AllCuts(letters, a + ";" + b)
    ensures AllCuts(letters, a + ";" + b) == AllCuts(letters, a) + [|a|] + Shifted(AllCuts(letters, b), |a| + 1)
  {
    var input := a + ";" + b;
    CutsAreTheCuts(letters, input, |input|);
    ScanIsRead(letters, input, |a|);
    assert input[..|a|] == a && TopLevel(Read(letters, Top, a));
    var l := Read(letters, Top, a);
    assert Cut(letters, input, |a|);
    assert ";"[..0] == "" && Read(letters, l, "") == l && CutsFrom(letters, l, "") == [];
    assert Read(letters, l, ";") == Top && CutsFrom(letters, l, ";") == [0];
    hide Read, CutsFrom, Step, Scan, Cut;
    assert input == (a + ";") + b;
    ReadBoth(letters, Top, a, ";");
    ReadBoth(letters, Top, a + ";", b);
    AllCutsFromTop(letters, input);
    AllCutsFromTop(letters, a);
    AllCutsFromTop(letters, b);
  }

  lemma AddToBoth(first: seq<string>, more: seq<string>, raw: string)
    ensures AddIfAny(first + more, raw) == first + AddIfAny(more, raw)
  {
    hide Trim;
  }

  /** The text before the `k`th cut and after the one before it, or after the last. */
  ghost function RawAt(letters: Letters, text: string, k: nat): string
    requires k <= |AllCuts(letters, text)|
  {
    var cuts := AllCuts(letters, text);
    BetweenCuts(letters, text, k);
    text[StartOf(cuts, k)..if k < |cuts| then cuts[k] else |text|]
  }

  ghost function EndedBy(letters: Letters, text: string, k: nat): seq<string>
    requires k <= |AllCuts(letters, text)|
  {
    if k == 0 then [] else AddIfAny(EndedBy(letters, text, k - 1), RawAt(letters, text, k - 1))
  }

  lemma {:induction false} EndedByIsEnded(letters: Letters, text: string, k: nat)
    requires k <= |AllCuts(letters, text)| && CutList(text, AllCuts(letters, text))
    ensures Ended(text, AllCuts(letters, text), k) == EndedBy(letters, text, k)
  {
    hide AddIfAny, CutList, AllCuts;
    if k > 0 {
      EndedByIsEnded(letters, text, k - 1);
    }
  }

  lemma StatementsAreSegments(letters: Letters, text: string)
    ensures
      var n := |AllCuts(letters, text)|;
      Statements(letters, text) == AddIfAny(EndedBy(letters, text, n), RawAt(letters, text, n))
  {
    hide CutList, AddIfAny, Ended, EndedBy, Cuts, StartOf, NoCuts, Cut;
    var cuts := AllCuts(letters, text);
    CutsAreAList(letters, text);
    EndedByIsEnded(letters, text, |cuts|);
    BetweenCuts(letters, text, |cuts|);
    assert RawAt(letters, text, |cuts|) == text[StartOf(cuts, |cuts|)..];
    assert Statements(letters, text) == AddIfAny(Ended(text, cuts, |cuts|), text[StartOf(cuts, |cuts|)..]);
  }

  lemma IndexBefore(before: seq<nat>, at: nat, after: seq<nat>, k: nat)
    requires k <= |before|
    ensures
      var all := before + [at] + after;
      k < |all| && all[k] == (if k < |before| then before[k] else at) && StartOf(all, k) == StartOf(before, k)
  {
  }

  lemma IndexAfter(before: seq<nat>, at: nat, cuts: seq<nat>, k: nat)
    requires k <= |cuts|
    ensures
      var all, n := before + [at] + Shifted(cuts, at + 1), |before| + 1;
      && |all| == n + |cuts| && StartOf(all, n + k) == at + 1 + StartOf(cuts, k)
      && (k < |cuts| ==> all[n + k] == at + 1 + cuts[k])
  {
  }

  lemma SegmentBefore(letters: Letters, a: string, b: string, k: nat)
    requires |a| in AllCuts(letters, a + ";" + b) && k <= |AllCuts(letters, a)|
    ensures k < |AllCuts(letters, a + ";" + b)| && RawAt(letters, a + ";" + b, k) == RawAt(letters, a, k)
  {
    hide NoCuts, Cut, Cuts, Shifted, StartOf;
    var input := a + ";" + b;
    var before := AllCuts(letters, a);
    CutsAround(letters, a, b);
    IndexBefore(before, |a|, Shifted(AllCuts(letters, b), |a| + 1), k);
    BetweenCuts(letters, a, k);
    var to := if k < |before| then before[k] else |a|;
    assert input[StartOf(before, k)..to] == a[StartOf(before, k)..to];
  }

  lemma SliceAfter(a: string, b: string, from: nat, to: nat)
    requires from <= to <= |b|
    ensures |a + ";" + b| == |a| + 1 + |b| && (a + ";" + b)[|a| + 1 + from..|a| + 1 + to] == b[from..to]
  {
  }

  lemma SegmentAfter(letters: Letters, a: string, b: string, k: nat)
    requires |a| in AllCuts(letters, a + ";" + b) && k <= |AllCuts(letters, b)|
    ensures
      var n := |AllCuts(letters, a)| + 1;
      && |AllCuts(letters, a + ";" + b)| == n + |AllCuts(letters, b)|
      && RawAt(letters, a + ";" + b, n + k) == RawAt(letters, b, k)
  {
    hide NoCuts, Cut, Cuts, Shifted, StartOf;
    var cuts := AllCuts(letters, b);
    CutsAround(letters, a, b);
    IndexAfter(AllCuts(letters, a), |a|, cuts, k);
    BetweenCuts(letters, b, k);
    SliceAfter(a, b, StartOf(cuts, k), if k < |cuts| then cuts[k] else |b|);
  }

  lemma {:induction false} EndedBefore(letters: Letters, a: string, b: string, k: nat)
    requires |a| in AllCuts(letters, a + ";" + b) && k <= |AllCuts(letters, a)|
    ensures k < |AllCuts(letters, a + ";" + b)| && EndedBy(letters, a + ";" + b, k) == EndedBy(letters, a, k)
  {
    hide AddIfAny, RawAt, AllCuts;
    SegmentBefore(letters, a, b, k);
    if k > 0 {
      EndedBefore(letters, a, b, k - 1);
      SegmentBefore(letters, a, b, k - 1);
    }
  }

  lemma {:induction false} EndedAfter(letters: Letters, a: string, b: string, k: nat)
    requires |a| in AllCuts(letters, a + ";" + b) && k <= |AllCuts(letters, b)|
    ensures
      var n := |AllCuts(letters, a)| + 1;
      && |AllCuts(letters, a + ";" + b)| == n + |AllCuts(letters, b)|
      && EndedBy(letters, a + ";" + b, n + k) == Statements(letters, a) + EndedBy(letters, b, k)
  {
    hide AddIfAny, RawAt, AllCuts, Statements;
    var n := |AllCuts(letters, a)| + 1;
    SegmentAfter(letters, a, b, k);
    if k == 0 {
      EndedBefore(letters, a, b, n - 1);
      SegmentBefore(letters, a, b, n - 1);
      StatementsAreSegments(letters, a);
    } else {
      EndedAfter(letters, a, b, k - 1);
      SegmentAfter(letters, a, b, k - 1);
      AddToBoth(Statements(letters, a), EndedBy(letters, b, k - 1), RawAt(letters, b, k - 1));
    }
  }

  /** Around a cut, each side is split by itself. */
  lemma StatementsAroundCut(letters: Letters, a: string, b: string)
    requires |a| in AllCuts(letters, a + ";" + b)
    ensures Statements(letters, a + ";" + b) == Statements(letters, a) + Statements(letters, b)
  {
    hide AddIfAny, RawAt, AllCuts, Statements, EndedBy;
    var n := |AllCuts(letters, b)|;
    EndedAfter(letters, a, b, n);
    SegmentAfter(letters, a, b, n);
    StatementsAreSegments(letters, a + ";" + b);
    StatementsAreSegments(letters, b);
    AddToBoth(Statements(letters, a), EndedBy(letters, b, n), RawAt(letters, b, n));
  }

  /** With no cut there is one statement at most: the text, trimmed. */
  lemma StatementsWithoutCut(letters: Letters, text: string)
    requires AllCuts(letters, text) == []
    ensures Statements(letters, text) == if Trim(text) == "" then [] else [Trim(text)]
  {
    assert text[0..] == text;
  }

  lemma {:induction false} ScriptBoth(a: seq<Token>, b: seq<Token>, ending: Ending)
    ensures Script(a + b, ending) == Script(a, Nothing) + Script(b, ending)
  {
    if a == [] {
      assert a + b == b;
    } else {
      hide TokenText;
      assert (a + b)[1..] == a[1..] + b;
      ScriptBoth(a[1..], b, ending);
    }
  }

  lemma HeadOfBoth(a: seq<Token>, b: seq<Token>)
    requires a != []
    ensures
      var n, head := |TokenText(a[0])|, if a[0] == Char(';') then [0] else [];
      && |Script(a, Nothing)| == |Script(a[1..], Nothing)| + n
      && Semicolons(a) == head + Shifted(Semicolons(a[1..]), n)
      && Semicolons(a + b) == head + Shifted(Semicolons(a[1..] + b), n)
  {
    hide TokenText, Shifted;
    assert (a + b)[1..] == a[1..] + b && (a + b)[0] == a[0];
  }

  lemma OneMoreOnTop(a: seq<Token>, b: seq<Token>)
    requires a != []
    requires Semicolons(a[1..] + b) == Semicolons(a[1..]) + Shifted(Semicolons(b), |Script(a[1..], Nothing)|)
    ensures Semicolons(a + b) == Semicolons(a) + Shifted(Semicolons(b), |Script(a, Nothing)|)
  {
    hide *;
    var n, below, head := |TokenText(a[0])|, |Script(a[1..], Nothing)|, if a[0] == Char(';') then [0] else [];
    var mine, others := Semicolons(a[1..]), Semicolons(b);
    HeadOfBoth(a, b);
    ShiftedBoth(mine, Shifted(others, below), 0, n);
    ShiftedBoth(others, [], below, n);
    Regroup(head, Shifted(mine, n), Shifted(others, below + n));
  }

  lemma {:induction false} SemicolonsBoth(a: seq<Token>, b: seq<Token>)
    ensures Semicolons(a + b) == Semicolons(a) + Shifted(Semicolons(b), |Script(a, Nothing)|)
  {
    if a == [] {
      assert a + b == b && Shifted(Semicolons(b), 0) == Semicolons(b);
    } else {
      hide *;
      SemicolonsBoth(a[1..], b);
      OneMoreOnTop(a, b);
    }
  }

  lemma SemicolonScript(after: seq<Token>, ending: Ending)
    ensures
      var rest: seq<Token> := [Char(';')] + after;
      Script(rest, ending) == ";" + Script(after, ending) && 0 in Semicolons(rest)
  {
    var rest: seq<Token> := [Char(';')] + after;
    assert rest[1..] == after && TokenText(rest[0]) == ";";
    assert Semicolons(rest)[0] == 0;
  }

  lemma ShiftedIn(first: seq<nat>, cuts: seq<nat>, offset: nat)
    requires 0 in cuts
    ensures offset in first + Shifted(cuts, offset)
  {
    var i :| 0 <= i < |cuts| && cuts[i] == 0;
    assert (first + Shifted(cuts, offset))[|first| + i] == offset;
  }

  lemma SemicolonIsACut(letters: Letters, before: seq<Token>, after: seq<Token>, ending: Ending)
    requires IsScript(letters, before + ([Char(';')] + after), ending)
    ensures
      var first, second := Script(before, Nothing), Script(after, ending);
      && Script(before + ([Char(';')] + after), ending) == first + ";" + second
      && |first| in AllCuts(letters, first + ";" + second)
  {
    var first, second := Script(before, Nothing), Script(after, ending);
    var rest: seq<Token> := [Char(';')] + after;
    hide *;
    SemicolonScript(after, ending);
    CutAtSemicolons(letters, before + rest, ending);
    ScriptBoth(before, rest, ending);
    SemicolonsBoth(before, rest);
    assert first + (";" + second) == first + ";" + second;
    ShiftedIn(Semicolons(before), Semicolons(rest), |first|);
  }

  /** A script with a semicolon token is what comes before it and what comes after it, each split on
      its own. */
  lemma SemicolonSeparates(letters: Letters, before: seq<Token>, after: seq<Token>, ending: Ending)
    requires IsScript(letters, before + [Char(';')] + after, ending)
    ensures Statements(letters, Script(before + [Char(';')] + after, ending))
         == Statements(letters, Script(before, Nothing)) + Statements(letters, Script(after, ending))
  {
    hide *;
    assert before + [Char(';')] + after == before + ([Char(';')] + after);
    SemicolonIsACut(letters, before, after, ending);
    StatementsAroundCut(letters, Script(before, Nothing), Script(after, ending));
  }

  lemma {:induction false} NoSemicolons(tokens: seq<Token>)
    requires Char(';') !in tokens
    ensures Semicolons(tokens) == []
  {
    if tokens != [] {
      NoSemicolons(tokens[1..]);
    }
  }

  /** A script without one is a statement by itself. */
  lemma WithoutSemicolonIsOne(letters: Letters, tokens: seq<Token>, ending: Ending)
    requires IsScript(letters, tokens, ending) && Char(';') !in tokens
    ensures
      var text := Script(tokens, ending);
      Statements(letters, text) == if Trim(text) == "" then [] else [Trim(text)]
  {
    CutAtSemicolons(letters, tokens, ending);
    NoSemicolons(tokens);
    StatementsWithoutCut(letters, Script(tokens, ending));
  }
}
