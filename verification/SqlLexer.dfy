/**
 What "top level" means in a SQL script, one character at a time. Quotes toggle, so a doubled
 quote needs no rule of its own; block comments nest; a dollar quote ends at its own delimiter.
 */
module SqlLexer {
  /** Which characters outside ASCII count as letters or digits. */
  type Letters = char -> bool

  predicate Word(letters: Letters, c: char) {
    ('a' <= c <= 'z') || ('A' <= c <= 'Z') || ('0' <= c <= '9') || c == '_' || (c > '\U{7F}' && letters(c))
  }

  /** Unicode white space. */
  predicate Space(c: char) {
    || ('\U{9}' <= c <= '\U{D}') || c == ' ' || c == '\U{85}' || c == '\U{A0}' || c == '\U{1680}'
    || ('\U{2000}' <= c <= '\U{200A}') || c == '\U{2028}' || c == '\U{2029}' || c == '\U{202F}' || c == '\U{205F}' || c == '\U{3000}'
  }

  /** Half of a two-character token inside a block comment. */
  datatype Half = Neither | Star | Stroke

  datatype Lexer =
    | Top
    | Dash                                 // a `-` that may start a line comment
    | Slash                                // a `/` that may start a block comment
    | Tag(tag: string)                     // a `$` and the word after it so far
    | Quote(quote: char)
    | LineComment
    | Block(depth: nat, half: Half)
    | Dollar(delim: string, body: string)  // inside a dollar quote, its text so far

  /** Nothing is open: a `;` here would end the statement. */
  predicate TopLevel(l: Lexer) {
    l.Top? || l.Dash? || l.Slash? || l.Tag?
  }

  function FromTop(c: char): Lexer {
    if c == '\'' || c == '"' then Quote(c)
    else if c == '$' then Tag("")
    else if c == '-' then Dash
    else if c == '/' then Slash
    else Top
  }

  predicate EndsWith(s: string, t: string) {
    |t| <= |s| && s[|s| - |t|..] == t
  }

  function StepBlock(depth: nat, half: Half, c: char): Lexer {
    if half == Star && c == '/' then if depth <= 1 then Top else Block(depth - 1, Neither)
    else if half == Stroke && c == '*' then Block(depth + 1, Neither)
    else Block(depth, if c == '*' then Star else if c == '/' then Stroke else Neither)
  }

  function Step(letters: Letters, l: Lexer, c: char): Lexer {
    match l
    case Top => FromTop(c)
    case Dash => if c == '-' then LineComment else FromTop(c)
    case Slash => if c == '*' then Block(1, Neither) else FromTop(c)
    case Tag(tag) =>
      if c == '$' then Dollar("$" + tag + "$", "")
      else if Word(letters, c) then Tag(tag + [c])
      else FromTop(c)
    case Quote(q) => if c == q then Top else l
    case LineComment => if c == '\n' then Top else l
    case Block(depth, half) => StepBlock(depth, half, c)
    case Dollar(delim, body) => if EndsWith(body + [c], delim) then Top else Dollar(delim, body + [c])
  }

  /** The lexer after the first `n` characters. */
  function Scan(letters: Letters, input: string, n: nat): Lexer
    requires n <= |input|
  {
    if n == 0 then Top else Step(letters, Scan(letters, input, n - 1), input[n - 1])
  }

  /** A semicolon that ends a statement. */
  predicate Cut(letters: Letters, input: string, i: nat)
    requires i < |input|
  {
    input[i] == ';' && TopLevel(Scan(letters, input, i))
  }

  /** All of them, in order. */
  function Cuts(letters: Letters, input: string, n: nat): seq<nat>
    requires n <= |input|
  {
    if n == 0 then []
    else Cuts(letters, input, n - 1) + if Cut(letters, input, n - 1) then [n - 1] else []
  }

  lemma {:induction false} CutsAreTheCuts(letters: Letters, input: string, n: nat)
    requires n <= |input|
    ensures
      var cuts := Cuts(letters, input, n);
      && (forall k :: 0 <= k < |cuts| ==> cuts[k] < n)
      && (forall j, k :: 0 <= j < k < |cuts| ==> cuts[j] < cuts[k])
      && (forall i :: 0 <= i < n ==> (i in cuts <==> Cut(letters, input, i)))
  {
    if n > 0 {
      CutsAreTheCuts(letters, input, n - 1);
    }
  }

  ghost predicate NoCuts(letters: Letters, input: string, from: nat, to: nat)
    requires from <= to <= |input|
  {
    forall i :: from <= i < to ==> !Cut(letters, input, i)
  }

  lemma {:induction false} SameCuts(letters: Letters, input: string, from: nat, to: nat)
    requires from <= to <= |input| && NoCuts(letters, input, from, to)
    ensures Cuts(letters, input, to) == Cuts(letters, input, from)
  {
    if from < to {
      SameCuts(letters, input, from, to - 1);
    }
  }

  /** Where nothing is pending the rest of the text lexes as if it stood alone. */
  lemma {:induction false} ScanStandsAlone(letters: Letters, input: string, from: nat, to: nat, n: nat)
    requires from <= to <= |input| && n <= to - from && Scan(letters, input, from) == Top
    ensures Scan(letters, input[from..to], n) == Scan(letters, input, from + n)
  {
    if n > 0 {
      ScanStandsAlone(letters, input, from, to, n - 1);
    }
  }

  // ---- statements ----

  function TrimStart(s: string): (t: string)
    ensures |t| <= |s| && t == s[|s| - |t|..]
    ensures t != "" ==> !Space(t[0])
    ensures forall i :: 0 <= i < |s| - |t| ==> Space(s[i])
  {
    if s != "" && Space(s[0]) then TrimStart(s[1..]) else s
  }

  function TrimEnd(s: string): (t: string)
    ensures |t| <= |s| && t == s[..|t|]
    ensures t != "" ==> !Space(t[|t| - 1])
    ensures forall i :: |t| <= i < |s| ==> Space(s[i])
  {
    if s != "" && Space(s[|s| - 1]) then TrimEnd(s[..|s| - 1]) else s
  }

  function Trim(s: string): string {
    TrimEnd(TrimStart(s))
  }

  /** Where the segment after the first `k` cuts starts. */
  function StartOf(cuts: seq<nat>, k: nat): nat
    requires k <= |cuts|
  {
    if k == 0 then 0 else cuts[k - 1] + 1
  }

  ghost predicate CutList(input: string, cuts: seq<nat>) {
    && (forall k :: 0 <= k < |cuts| ==> cuts[k] < |input|)
    && (forall j, k :: 0 <= j < k < |cuts| ==> cuts[j] < cuts[k])
  }

  lemma CutsAreAList(letters: Letters, input: string)
    ensures CutList(input, Cuts(letters, input, |input|))
  {
    CutsAreTheCuts(letters, input, |input|);
  }

  function AddIfAny(statements: seq<string>, raw: string): seq<string> {
    if Trim(raw) == "" then statements else statements + [Trim(raw)]
  }

  /** The statements ended by the first `k` cuts: trimmed segments, empty ones dropped. */
  function Ended(input: string, cuts: seq<nat>, k: nat): seq<string>
    requires k <= |cuts| && CutList(input, cuts)
  {
    if k == 0 then [] else AddIfAny(Ended(input, cuts, k - 1), input[StartOf(cuts, k - 1)..cuts[k - 1]])
  }

  /** All statements: those ended by a cut, and the rest. */
  ghost function Statements(letters: Letters, input: string): seq<string> {
    var cuts := Cuts(letters, input, |input|);
    CutsAreAList(letters, input);
    AddIfAny(Ended(input, cuts, |cuts|), input[StartOf(cuts, |cuts|)..])
  }

  // ---- nothing is lost, and every statement stands alone ----

  /** The raw text before each of the first `k` cuts, each with its semicolon. */
  function Joined(input: string, cuts: seq<nat>, k: nat): string
    requires k <= |cuts| && CutList(input, cuts)
  {
    if k == 0 then "" else Joined(input, cuts, k - 1) + input[StartOf(cuts, k - 1)..cuts[k - 1]] + ";"
  }

  lemma {:induction false} JoinedIsPrefix(input: string, cuts: seq<nat>, k: nat)
    requires k <= |cuts| && CutList(input, cuts) && forall j :: 0 <= j < |cuts| ==> input[cuts[j]] == ';'
    ensures Joined(input, cuts, k) == input[..StartOf(cuts, k)]
  {
    if k > 0 {
      JoinedIsPrefix(input, cuts, k - 1);
      var from, to := StartOf(cuts, k - 1), cuts[k - 1];
      assert input[..to + 1] == input[..from] + input[from..to] + [input[to]];
      assert [input[to]] == ";";
    }
  }

  /** The raw segments, rejoined with the semicolons they were cut at, are the input. */
  lemma RejoinedIsTheInput(letters: Letters, input: string)
    ensures
      var cuts := Cuts(letters, input, |input|);
      && CutList(input, cuts)
      && Joined(input, cuts, |cuts|) + input[StartOf(cuts, |cuts|)..] == input
  {
    var cuts := Cuts(letters, input, |input|);
    CutsAreTheCuts(letters, input, |input|);
    forall j | 0 <= j < |cuts| ensures input[cuts[j]] == ';' {
      assert cuts[j] in cuts;
    }
    JoinedIsPrefix(input, cuts, |cuts|);
  }

  lemma {:induction false} SpacesStayAtTop(letters: Letters, s: string, n: nat)
    requires n <= |s| && forall i :: 0 <= i < n ==> Space(s[i])
    ensures Scan(letters, s, n) == Top
  {
    if n > 0 {
      SpacesStayAtTop(letters, s, n - 1);
    }
  }

  /** Text that starts at top level and has no cut. */
  ghost predicate StandsAlone(letters: Letters, s: string) {
    forall i :: 0 <= i < |s| ==> !Cut(letters, s, i)
  }

  lemma TrimIsASlice(raw: string) returns (from: nat)
    ensures from + |Trim(raw)| <= |raw| && Trim(raw) == raw[from..from + |Trim(raw)|]
    ensures forall i :: 0 <= i < from ==> Space(raw[i])
  {
    hide TrimStart, TrimEnd;
    var left := TrimStart(raw);
    from := |raw| - |left|;
    assert left == raw[from..] && Trim(raw) == left[..|Trim(raw)|];
  }

  lemma SliceStandsAlone(letters: Letters, raw: string, from: nat, to: nat)
    requires from <= to <= |raw| && StandsAlone(letters, raw) && Scan(letters, raw, from) == Top
    ensures StandsAlone(letters, raw[from..to])
  {
    var s := raw[from..to];
    forall i | 0 <= i < |s| ensures !Cut(letters, s, i) {
      ScanStandsAlone(letters, raw, from, to, i);
      assert !Cut(letters, raw, from + i);
    }
  }

  /** Trimming keeps a cut-free text cut-free. */
  lemma TrimStandsAlone(letters: Letters, raw: string)
    requires StandsAlone(letters, raw)
    ensures StandsAlone(letters, Trim(raw))
  {
    hide Trim, StandsAlone;
    var from := TrimIsASlice(raw);
    SpacesStayAtTop(letters, raw, from);
    SliceStandsAlone(letters, raw, from, from + |Trim(raw)|);
  }

  lemma TrimIsIdempotent(s: string)
    ensures Trim(Trim(s)) == Trim(s)
  {
    var t := Trim(s);
    if t != "" {
      assert t[0] == TrimStart(s)[0];
      assert TrimStart(t) == t;
    }
  }

  lemma NoCutsAlone(letters: Letters, s: string)
    requires StandsAlone(letters, s)
    ensures Cuts(letters, s, |s|) == []
  {
    SameCuts(letters, s, 0, |s|);
  }

  /** Splitting a trimmed, cut-free, non-empty text gives the text back. */
  lemma AloneSplitsToItself(letters: Letters, s: string)
    requires StandsAlone(letters, s) && Trim(s) == s && s != ""
    ensures Statements(letters, s) == [s]
  {
    NoCutsAlone(letters, s);
    assert s[0..] == s;
  }

  /** The text between two neighbouring cuts, or after the last. */
  lemma SegmentStandsAlone(letters: Letters, input: string, from: nat, to: nat)
    requires from <= to <= |input| && NoCuts(letters, input, from, to)
    requires from == 0 || Cut(letters, input, from - 1)
    ensures StandsAlone(letters, input[from..to])
  {
    assert Scan(letters, input, from) == Top;
    forall i | 0 <= i < to - from ensures !Cut(letters, input[from..to], i) {
      ScanStandsAlone(letters, input, from, to, i);
      assert !Cut(letters, input, from + i);
    }
  }

  /** A cut between two cuts, or before the first, would be in the list between them. */
  lemma BetweenCuts(letters: Letters, input: string, k: nat)
    requires k <= |Cuts(letters, input, |input|)|
    ensures
      var cuts := Cuts(letters, input, |input|);
      var to := if k < |cuts| then cuts[k] else |input|;
      && StartOf(cuts, k) <= to <= |input| && NoCuts(letters, input, StartOf(cuts, k), to)
      && (StartOf(cuts, k) == 0 || Cut(letters, input, StartOf(cuts, k) - 1))
  {
    var cuts := Cuts(letters, input, |input|);
    var to := if k < |cuts| then cuts[k] else |input|;
    CutsAreTheCuts(letters, input, |input|);
    CutsAreAList(letters, input);
    forall i | StartOf(cuts, k) <= i < to ensures !Cut(letters, input, i) {
      forall j | 0 <= j < |cuts| ensures cuts[j] != i {
        if j < k {
          assert j == k - 1 || cuts[j] < cuts[k - 1];
        } else {
          assert j == k || cuts[k] < cuts[j];
        }
      }
    }
    if k > 0 {
      assert cuts[k - 1] in cuts;
    }
  }

  ghost predicate SplitsToItself(letters: Letters, s: string) {
    Statements(letters, s) == [s]
  }

  ghost predicate AllSplitToThemselves(letters: Letters, statements: seq<string>) {
    forall s :: s in statements ==> SplitsToItself(letters, s)
  }

  lemma PieceSplitsToItself(letters: Letters, statements: seq<string>, raw: string)
    requires AllSplitToThemselves(letters, statements) && StandsAlone(letters, raw)
    ensures AllSplitToThemselves(letters, AddIfAny(statements, raw))
  {
    hide Statements, Trim, StandsAlone;
    if Trim(raw) != "" {
      TrimStandsAlone(letters, raw);
      TrimIsIdempotent(raw);
      AloneSplitsToItself(letters, Trim(raw));
    }
  }

  lemma NoneToSplit(letters: Letters)
    ensures AllSplitToThemselves(letters, [])
  {
  }

  lemma {:induction false} EndedSplitToThemselves(letters: Letters, input: string, k: nat)
    requires k <= |Cuts(letters, input, |input|)| && CutList(input, Cuts(letters, input, |input|))
    ensures AllSplitToThemselves(letters, Ended(input, Cuts(letters, input, |input|), k))
  {
    hide AllSplitToThemselves, AddIfAny, StandsAlone, Cuts, Cut, NoCuts;
    if k > 0 {
      var cuts := Cuts(letters, input, |input|);
      var from, to := StartOf(cuts, k - 1), cuts[k - 1];
      EndedSplitToThemselves(letters, input, k - 1);
      BetweenCuts(letters, input, k - 1);
      SegmentStandsAlone(letters, input, from, to);
      PieceSplitsToItself(letters, Ended(input, cuts, k - 1), input[from..to]);
    } else {
      NoneToSplit(letters);
    }
  }

  lemma LastSegment(letters: Letters, input: string)
    ensures
      var cuts := Cuts(letters, input, |input|);
      && CutList(input, cuts) && StartOf(cuts, |cuts|) <= |input|
      && Statements(letters, input) == AddIfAny(Ended(input, cuts, |cuts|), input[StartOf(cuts, |cuts|)..])
      && StandsAlone(letters, input[StartOf(cuts, |cuts|)..])
  {
    var cuts := Cuts(letters, input, |input|);
    CutsAreAList(letters, input);
    BetweenCuts(letters, input, |cuts|);
    SegmentStandsAlone(letters, input, StartOf(cuts, |cuts|), |input|);
    assert input[StartOf(cuts, |cuts|)..] == input[StartOf(cuts, |cuts|)..|input|];
  }

  lemma AllStatementsSplit(letters: Letters, input: string)
    ensures AllSplitToThemselves(letters, Statements(letters, input))
  {
    hide *;
    LastSegment(letters, input);
    var cuts := Cuts(letters, input, |input|);
    EndedSplitToThemselves(letters, input, |cuts|);
    PieceSplitsToItself(letters, Ended(input, cuts, |cuts|), input[StartOf(cuts, |cuts|)..]);
  }

  /** Splitting any statement again yields just that statement. */
  lemma StatementsSplitToThemselves(letters: Letters, input: string, s: string)
    requires s in Statements(letters, input)
    ensures Statements(letters, s) == [s]
  {
    hide Statements;
    AllStatementsSplit(letters, input);
    assert SplitsToItself(letters, s);
  }
}
