/**
 The splitter as it runs: an index that jumps over quotes, dollar quotes and comments in one
 go. It cuts exactly where the character-at-a-time lexer is at top level.
 */
module Splitter {
  import opened Wrappers
  import opened SqlLexer

  /** The word from `i` on is not the rest of a dollar quote's tag. */
  predicate NoTagEnd(letters: Letters, input: string, i: nat)
    requires i <= |input|
    decreases |input| - i
  {
    i == |input| || (if Word(letters, input[i]) then NoTagEnd(letters, input, i + 1) else input[i] != '$')
  }

  /** The lexer at `i` has nothing pending that the next characters could complete, so reading
      on from `i` as if from top level is right. */
  predicate Ready(letters: Letters, input: string, i: nat)
    requires i <= |input|
  {
    match Scan(letters, input, i)
    case Top => true
    case Dash => i < |input| ==> input[i] != '-'
    case Slash => i < |input| ==> input[i] != '*'
    case Tag(_) => NoTagEnd(letters, input, i)
    case LineComment => i < |input| && input[i] == '\n'
    case _ => false
  }

  /** The index has reached the end, or may read on as from top level. */
  predicate ReadyOrDone(letters: Letters, input: string, i: nat)
    requires i <= |input|
  {
    i == |input| || Ready(letters, input, i)
  }

  lemma ReadyReadsFromTop(letters: Letters, input: string, i: nat)
    requires i < |input| && Ready(letters, input, i)
    ensures TopLevel(Scan(letters, input, i)) || input[i] == '\n'
    ensures
      var next := Scan(letters, input, i + 1);
      next == FromTop(input[i]) || (Word(letters, input[i]) && next.Tag? && NoTagEnd(letters, input, i + 1))
  {
  }

  // ---- searching, as the library does it ----

  predicate OccursAt(s: string, k: nat, pattern: string) {
    k + |pattern| <= |s| && s[k..k + |pattern|] == pattern
  }

  function FindFrom(s: string, from: nat, pattern: string): (r: Option<nat>)
    requires from <= |s|
    ensures r.Some? ==> from <= r.value && OccursAt(s, r.value, pattern)
    ensures forall k :: from <= k <= |s| && (r.Some? ==> k < r.value) ==> !OccursAt(s, k, pattern)
    decreases |s| - from
  {
    if OccursAt(s, from, pattern) then Some(from)
    else if from == |s| then None
    else FindFrom(s, from + 1, pattern)
  }

  // ---- quotes ----

  /** Just past a quoted run; a doubled quote stays inside it. */
  method SkipQuoted(letters: Letters, input: string, start: nat) returns (end: nat)
    requires start < |input| && Ready(letters, input, start) && (input[start] == '\'' || input[start] == '"')
    ensures start < end <= |input| && NoCuts(letters, input, start, end) && ReadyOrDone(letters, input, end)
  {
    var quote := input[start];
    ReadyReadsFromTop(letters, input, start);
    end := start + 1;
    while end < |input|
      invariant start < end <= |input|
      invariant Scan(letters, input, end) == Quote(quote)
      invariant NoCuts(letters, input, start, end)
    {
      if input[end] == quote {
        if end + 1 < |input| && input[end + 1] == quote {
          assert Scan(letters, input, end + 1) == Top;
          end := end + 2;
          continue;
        }
        return end + 1;
      }
      end := end + 1;
    }
  }

  // ---- block comments ----

  /** No half token at `i` that the next character would complete. */
  predicate WholeTokens(half: Half, input: string, i: nat)
    requires i <= |input|
  {
    i < |input| ==> !(half == Star && input[i] == '/') && !(half == Stroke && input[i] == '*')
  }

  /** Just past a block comment; they nest. */
  method SkipBlockComment(letters: Letters, input: string, start: nat) returns (end: nat)
    requires start + 1 < |input| && Ready(letters, input, start) && input[start] == '/' && input[start + 1] == '*'
    ensures start < end <= |input| && NoCuts(letters, input, start, end) && ReadyOrDone(letters, input, end)
  {
    ReadyReadsFromTop(letters, input, start);
    assert Scan(letters, input, start + 1) == Slash;
    var depth: nat := 0;
    end := start;
    while end < |input|
      invariant start <= end <= |input| && (end == start <==> depth == 0)
      invariant depth > 0 ==>
        var l := Scan(letters, input, end); l.Block? && l.depth == depth && WholeTokens(l.half, input, end)
      invariant NoCuts(letters, input, start, end)
    {
      if input[end] == '/' && end + 1 < |input| && input[end + 1] == '*' {
        assert Scan(letters, input, end + 2) == Block(depth + 1, Neither);
        depth := depth + 1;
        end := end + 2;
      } else if input[end] == '*' && end + 1 < |input| && input[end + 1] == '/' {
        assert Scan(letters, input, end + 1) == Block(depth, Star);
        depth := depth - 1;
        end := end + 2;
        if depth == 0 {
          return;
        }
      } else {
        end := end + 1;
      }
    }
  }

  // ---- line comments ----

  method SkipLineComment(letters: Letters, input: string, start: nat) returns (end: nat)
    requires start + 1 < |input| && Ready(letters, input, start) && input[start] == '-' && input[start + 1] == '-'
    ensures start < end <= |input| && NoCuts(letters, input, start, end) && ReadyOrDone(letters, input, end)
  {
    ReadyReadsFromTop(letters, input, start);
    assert Scan(letters, input, start + 1) == Dash && Scan(letters, input, start + 2) == LineComment;
    end := start;
    while end < |input| && input[end] != '\n'
      invariant start <= end <= |input|
      invariant end == start + 1 ==> Scan(letters, input, end) == Dash
      invariant end > start + 1 ==> Scan(letters, input, end) == LineComment
      invariant NoCuts(letters, input, start, end)
    {
      end := end + 1;
    }
  }

  // ---- dollar quotes ----

  predicate AllWords(letters: Letters, s: string) {
    forall i :: 0 <= i < |s| ==> Word(letters, s[i])
  }

  /** With no `$` before the first character that is not part of a word, there is no tag. */
  lemma {:induction false} BrokenTag(letters: Letters, input: string, i: nat, end: nat)
    requires i <= end <= |input| && forall k :: i <= k < end ==> input[k] != '$'
    requires end == |input| || exists k :: i <= k < end && !Word(letters, input[k])
    ensures NoTagEnd(letters, input, i)
    decreases |input| - i
  {
    if i < |input| {
      assert i < end;
      if Word(letters, input[i]) {
        BrokenTag(letters, input, i + 1, end);
      }
    }
  }

  lemma {:induction false} TagGrows(letters: Letters, input: string, start: nat, n: nat)
    requires start < n <= |input| && Scan(letters, input, start + 1) == Tag("")
    requires forall k :: start < k < n ==> Word(letters, input[k])
    ensures Scan(letters, input, n) == Tag(input[start + 1..n])
    ensures forall k :: start < k < n ==> input[k] != ';'
  {
    if n > start + 1 {
      TagGrows(letters, input, start, n - 1);
      assert input[start + 1..n] == input[start + 1..n - 1] + [input[n - 1]];
    }
  }

  /** The text since `body` ends with the delimiter exactly where the delimiter occurs. */
  lemma EndsWhereItOccurs(input: string, body: nat, delim: string, n: nat)
    requires body <= n <= |input|
    ensures EndsWith(input[body..n], delim) <==> n - |delim| >= body && OccursAt(input, n - |delim|, delim)
  {
    var text := input[body..n];
    if |delim| <= |text| {
      assert text[|text| - |delim|..] == input[n - |delim|..n];
    }
  }

  lemma BodyStep(letters: Letters, input: string, body: nat, delim: string, n: nat)
    requires body <= n < |input| && Scan(letters, input, n) == Dollar(delim, input[body..n])
    ensures Scan(letters, input, n + 1) == if EndsWith(input[body..n + 1], delim) then Top else Dollar(delim, input[body..n + 1])
  {
    assert input[body..n + 1] == input[body..n] + [input[n]];
  }

  /** Inside a dollar quote the lexer remembers the text so far, until its delimiter ends it. */
  lemma {:induction false} BodyGrows(letters: Letters, input: string, body: nat, delim: string, n: nat)
    requires body <= n <= |input| && Scan(letters, input, body) == Dollar(delim, "")
    requires forall k :: body <= k && k + |delim| <= n ==> !OccursAt(input, k, delim)
    ensures Scan(letters, input, n) == Dollar(delim, input[body..n])
    ensures NoCuts(letters, input, body, n)
  {
    hide Scan, EndsWith, OccursAt;
    if n > body {
      BodyGrows(letters, input, body, delim, n - 1);
      BodyStep(letters, input, body, delim, n - 1);
      EndsWhereItOccurs(input, body, delim, n);
    } else {
      assert input[body..n] == "";
    }
  }

  lemma NoneBefore(input: string, body: nat, delim: string, k: nat)
    requires forall j :: body <= j < k ==> !OccursAt(input, j, delim)
    ensures forall j :: body <= j && j + |delim| <= k + |delim| - 1 ==> !OccursAt(input, j, delim)
  {
  }

  lemma LastOfBody(letters: Letters, input: string, body: nat, delim: string, n: nat)
    requires body <= n < |input| && |delim| <= n + 1 - body && OccursAt(input, n + 1 - |delim|, delim)
    requires Scan(letters, input, n) == Dollar(delim, input[body..n]) && NoCuts(letters, input, body, n)
    ensures Scan(letters, input, n + 1) == Top && NoCuts(letters, input, body, n + 1)
  {
    hide Scan, EndsWith, OccursAt;
    BodyStep(letters, input, body, delim, n);
    EndsWhereItOccurs(input, body, delim, n + 1);
  }

  lemma BodyEnds(letters: Letters, input: string, body: nat, delim: string, k: nat)
    requires body <= k && delim != "" && OccursAt(input, k, delim) && Scan(letters, input, body) == Dollar(delim, "")
    requires forall j :: body <= j < k ==> !OccursAt(input, j, delim)
    ensures k + |delim| <= |input| && Scan(letters, input, k + |delim|) == Top && NoCuts(letters, input, body, k + |delim|)
  {
    var n := k + |delim| - 1;
    assert n < |input|;
    hide *;
    NoneBefore(input, body, delim, k);
    BodyGrows(letters, input, body, delim, n);
    LastOfBody(letters, input, body, delim, n);
  }

  /** Where the next `$` is, if there is one. */
  lemma NextDollar(input: string, from: nat, close: Option<nat>)
    requires from <= |input| && close == FindFrom(input, from, "$")
    ensures close.Some? ==> from <= close.value < |input| && input[close.value] == '$'
    ensures forall k :: from <= k < (if close.Some? then close.value else |input|) ==> input[k] != '$'
  {
    if close.Some? {
      assert input[close.value..close.value + 1] == [input[close.value]];
    }
    forall k | from <= k < (if close.Some? then close.value else |input|) ensures input[k] != '$' {
      assert !OccursAt(input, k, "$");
      assert input[k..k + 1] == [input[k]];
    }
  }

  /** No tag, so no quote: a `$` on its own. */
  lemma NoTag(letters: Letters, input: string, from: nat, close: Option<nat>)
    requires from <= |input| && close == FindFrom(input, from, "$") && Scan(letters, input, from) == Tag("")
    requires close.None? || !AllWords(letters, input[from..close.value])
    ensures ReadyOrDone(letters, input, from)
  {
    NextDollar(input, from, close);
    var stop := if close.Some? then close.value else |input|;
    if close.Some? {
      var tag := input[from..stop];
      var k :| 0 <= k < |tag| && !Word(letters, tag[k]);
      assert !Word(letters, input[from + k]);
    }
    BrokenTag(letters, input, from, stop);
  }

  lemma BodyOpens(letters: Letters, input: string, start: nat, close: nat, delim: string)
    requires start < close < |input| && input[start] == input[close] == '$' && delim == input[start..close + 1]
    requires Scan(letters, input, start + 1) == Tag("") && AllWords(letters, input[start + 1..close])
    ensures Scan(letters, input, close + 1) == Dollar(delim, "") && NoCuts(letters, input, start, close + 1)
  {
    forall k | start < k < close ensures Word(letters, input[k]) {
      assert input[start + 1..close][k - start - 1] == input[k];
    }
    var tag := input[start + 1..close];
    TagGrows(letters, input, start, close);
    assert delim == "$" + tag + "$";
    assert Scan(letters, input, close) == Tag(tag);
    assert NoCuts(letters, input, start, close + 1);
  }

  method DollarBody(letters: Letters, input: string, start: nat, close: nat, delim: string) returns (end: nat)
    requires start < close < |input| && input[start] == input[close] == '$' && delim == input[start..close + 1]
    requires Scan(letters, input, start + 1) == Tag("") && AllWords(letters, input[start + 1..close])
    ensures start < end <= |input| && NoCuts(letters, input, start, end) && ReadyOrDone(letters, input, end)
  {
    var body := close + 1;
    BodyOpens(letters, input, start, close, delim);
    hide Scan, AllWords, NoCuts;
    var found := FindFrom(input, body, delim);
    if found.Some? {
      BodyEnds(letters, input, body, delim, found.value);
      end := found.value + |delim|;
    } else {
      BodyGrows(letters, input, body, delim, |input|);
      end := |input|;
    }
  }

  /** Just past a dollar quote, or past its `$` if it does not begin one. */
  method SkipDollarQuoted(letters: Letters, input: string, start: nat) returns (end: nat)
    requires start < |input| && Ready(letters, input, start) && input[start] == '$'
    ensures start < end <= |input| && NoCuts(letters, input, start, end) && ReadyOrDone(letters, input, end)
  {
    ReadyReadsFromTop(letters, input, start);
    assert Scan(letters, input, start + 1) == Tag("") && NoCuts(letters, input, start, start + 1);
    var close := FindFrom(input, start + 1, "$");
    NextDollar(input, start + 1, close);
    hide Scan, FindFrom, OccursAt, NoCuts, AllWords, Ready;
    if close.None? || !AllWords(letters, input[start + 1..close.value]) {
      NoTag(letters, input, start + 1, close);
      return start + 1;
    }
    var delim := input[start..close.value + 1];
    end := DollarBody(letters, input, start, close.value, delim);
  }

  // ---- the splitter ----

  lemma {:induction false} EndedByPrefix(input: string, cuts: seq<nat>, last: nat, k: nat)
    requires CutList(input, cuts) && CutList(input, cuts + [last]) && k <= |cuts|
    ensures Ended(input, cuts + [last], k) == Ended(input, cuts, k)
  {
    hide AddIfAny;
    if k > 0 {
      EndedByPrefix(input, cuts, last, k - 1);
      assert StartOf(cuts + [last], k - 1) == StartOf(cuts, k - 1) && (cuts + [last])[k - 1] == cuts[k - 1];
    }
  }

  lemma CutsSoFar(letters: Letters, input: string, i: nat)
    requires i <= |input|
    ensures CutList(input, Cuts(letters, input, i))
  {
    CutsAreTheCuts(letters, input, i);
  }

  /** The statements these cuts ended before `i`, and where the current one starts. */
  ghost predicate EndedSoFar(input: string, cuts: seq<nat>, i: nat, start: nat, statements: seq<string>) {
    && CutList(input, cuts)
    && start == StartOf(cuts, |cuts|) <= i
    && statements == Ended(input, cuts, |cuts|)
  }

  ghost predicate SplitSoFar(letters: Letters, input: string, i: nat, start: nat, statements: seq<string>)
    requires i <= |input|
  {
    EndedSoFar(input, Cuts(letters, input, i), i, start, statements)
  }

  lemma OneMoreEnded(input: string, cuts: seq<nat>, last: nat)
    requires CutList(input, cuts) && CutList(input, cuts + [last])
    ensures StartOf(cuts, |cuts|) <= last < |input|
    ensures Ended(input, cuts + [last], |cuts| + 1) == AddIfAny(Ended(input, cuts, |cuts|), input[StartOf(cuts, |cuts|)..last])
    ensures StartOf(cuts + [last], |cuts| + 1) == last + 1
  {
    var more := cuts + [last];
    assert more[|cuts|] == last && (|cuts| > 0 ==> more[|cuts| - 1] == cuts[|cuts| - 1] < last);
    hide AddIfAny, CutList;
    EndedByPrefix(input, cuts, last, |cuts|);
    assert StartOf(more, |cuts|) == StartOf(cuts, |cuts|);
  }

  lemma AddCut(input: string, cuts: seq<nat>, i: nat, start: nat, statements: seq<string>)
    requires i < |input| && EndedSoFar(input, cuts, i, start, statements) && CutList(input, cuts + [i])
    ensures EndedSoFar(input, cuts + [i], i + 1, i + 1, AddIfAny(statements, input[start..i]))
  {
    hide Ended, AddIfAny, CutList;
    OneMoreEnded(input, cuts, i);
  }

  lemma CutHere(letters: Letters, input: string, i: nat, start: nat, statements: seq<string>)
    requires i < |input| && SplitSoFar(letters, input, i, start, statements) && Cut(letters, input, i)
    ensures start <= i && SplitSoFar(letters, input, i + 1, i + 1, AddIfAny(statements, input[start..i]))
  {
    CutsSoFar(letters, input, i + 1);
    assert Cuts(letters, input, i + 1) == Cuts(letters, input, i) + [i];
    AddCut(input, Cuts(letters, input, i), i, start, statements);
  }

  lemma NoCutHere(letters: Letters, input: string, i: nat, end: nat, start: nat, statements: seq<string>)
    requires i <= end <= |input| && SplitSoFar(letters, input, i, start, statements) && NoCuts(letters, input, i, end)
    ensures SplitSoFar(letters, input, end, start, statements)
  {
    SameCuts(letters, input, i, end);
  }

  /** One plain character. */
  lemma PlainCharacter(letters: Letters, input: string, i: nat)
    requires i < |input| && Ready(letters, input, i)
    requires input[i] != '\'' && input[i] != '"' && input[i] != '$'
    requires !(input[i] == '-' && i + 1 < |input| && input[i + 1] == '-')
    requires !(input[i] == '/' && i + 1 < |input| && input[i + 1] == '*')
    ensures Ready(letters, input, i + 1)
    ensures input[i] != ';' ==> NoCuts(letters, input, i, i + 1)
    ensures input[i] == ';' ==> Cut(letters, input, i)
  {
    ReadyReadsFromTop(letters, input, i);
  }

  /** Past whatever begins here, other than a cut. */
  method SkipPiece(letters: Letters, input: string, i: nat) returns (end: nat)
    requires i < |input| && Ready(letters, input, i) && input[i] != ';'
    ensures i < end <= |input| && NoCuts(letters, input, i, end) && ReadyOrDone(letters, input, end)
  {
    hide Ready, Scan, Cut, NoCuts;
    if input[i] == '\'' || input[i] == '"' {
      end := SkipQuoted(letters, input, i);
    } else if input[i] == '$' {
      end := SkipDollarQuoted(letters, input, i);
    } else if input[i] == '-' && i + 1 < |input| && input[i + 1] == '-' {
      end := SkipLineComment(letters, input, i);
    } else if input[i] == '/' && i + 1 < |input| && input[i + 1] == '*' {
      end := SkipBlockComment(letters, input, i);
    } else {
      PlainCharacter(letters, input, i);
      end := i + 1;
    }
  }

  /** The current statement, if there is anything to it. */
  method EndStatement(statements: seq<string>, raw: string) returns (more: seq<string>)
    ensures more == AddIfAny(statements, raw)
  {
    var stmt := Trim(raw);
    more := if stmt != "" then statements + [stmt] else statements;
  }

  lemma WholeInput(letters: Letters, input: string, start: nat, statements: seq<string>)
    requires SplitSoFar(letters, input, |input|, start, statements) && start <= |input|
    ensures Statements(letters, input) == AddIfAny(statements, input[start..])
  {
  }

  method SplitStatements(letters: Letters, input: string) returns (statements: seq<string>)
    ensures statements == Statements(letters, input)
  {
    statements := [];
    var start, i := 0, 0;
    assert SplitSoFar(letters, input, 0, 0, []);
    assert Ready(letters, input, 0);
    hide SplitSoFar, Ready, Scan, Cut, NoCuts, AddIfAny, Statements;
    while i < |input|
      invariant start <= |input| && i <= |input|
      invariant SplitSoFar(letters, input, i, start, statements) && ReadyOrDone(letters, input, i)
    {
      if input[i] == ';' {
        PlainCharacter(letters, input, i);
        CutHere(letters, input, i, start, statements);
        statements := EndStatement(statements, input[start..i]);
        start := i + 1;
        i := i + 1;
      } else {
        var end := SkipPiece(letters, input, i);
        NoCutHere(letters, input, i, end, start, statements);
        i := end;
      }
    }
    WholeInput(letters, input, start, statements);
    statements := EndStatement(statements, input[start..]);
  }
}
