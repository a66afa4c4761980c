/** Subject patterns: globs in which only `*` is special, or anchored regular expressions after "re:". */
module SubjectPattern {
  import opened Wrappers
  import opened Text
  import opened Regex
  import opened RegexSyntax

  datatype PatternError = RegexNotAnchored | InvalidRegex | InvalidGlob

  predicate IsRegexPattern(pattern: string) {
    HasPrefix(pattern, "re:")
  }

  // ----- what a glob means -----

  predicate NewlineFree(s: string) {
    '\n' !in s
  }

  /** Character by character: `*` takes any newline-free run, everything else is itself. */
  ghost predicate GlobMatches(pattern: string, s: string)
    decreases |pattern|
  {
    if pattern == "" then s == ""
    else if pattern[0] == '*' then
      exists k :: 0 <= k <= |s| && NewlineFree(s[..k]) && GlobMatches(pattern[1..], s[k..])
    else s != "" && s[0] == pattern[0] && GlobMatches(pattern[1..], s[1..])
  }

  /** The literal pieces of a pattern with one run of the subject between each two. */
  function Interleave(pieces: seq<string>, runs: seq<string>): string
    requires |pieces| == |runs| + 1
  {
    if runs == [] then pieces[0] else pieces[0] + runs[0] + Interleave(pieces[1..], runs[1..])
  }

  ghost predicate FillsIn(pattern: string, s: string, runs: seq<string>) {
    var pieces := Split(pattern, '*');
    && |pieces| == |runs| + 1
    && (forall r :: r in runs ==> NewlineFree(r))
    && s == Interleave(pieces, runs)
  }

  lemma {:induction false} FillInStar(pattern: string, s: string, k: nat, runs: seq<string>)
    requires pattern != "" && pattern[0] == '*' && k <= |s|
    requires NewlineFree(s[..k]) && FillsIn(pattern[1..], s[k..], runs)
    ensures FillsIn(pattern, s, [s[..k]] + runs)
  {
    var pieces, all := Split(pattern[1..], '*'), [s[..k]] + runs;
    assert ([""] + pieces)[1..] == pieces && all[1..] == runs;
    assert s == "" + s[..k] + s[k..];
  }

  lemma {:induction false} FillInLiteral(pattern: string, s: string, runs: seq<string>)
    requires pattern != "" && pattern[0] != '*' && s != "" && s[0] == pattern[0]
    ensures FillsIn(pattern[1..], s[1..], runs) <==> FillsIn(pattern, s, runs)
  {
    var rest, pieces := Split(pattern[1..], '*'), Split(pattern, '*');
    assert pieces == [[pattern[0]] + rest[0]] + rest[1..];
    assert pieces[1..] == rest[1..];
    if |pieces| == |runs| + 1 {
      assert Interleave(pieces, runs) == [pattern[0]] + Interleave(rest, runs);
      assert s == [s[0]] + s[1..];
      assert ([pattern[0]] + Interleave(rest, runs))[1..] == Interleave(rest, runs);
    }
  }

  lemma FillOutStar(pattern: string, s: string, runs: seq<string>)
    requires pattern != "" && pattern[0] == '*' && FillsIn(pattern, s, runs)
    ensures runs != [] && |runs[0]| <= |s| && NewlineFree(s[..|runs[0]|])
    ensures FillsIn(pattern[1..], s[|runs[0]|..], runs[1..])
  {
    var pieces := Split(pattern, '*');
    assert pieces[0] == "" && pieces[1..] == Split(pattern[1..], '*');
    assert s == runs[0] + Interleave(pieces[1..], runs[1..]);
    assert s[..|runs[0]|] == runs[0] && s[|runs[0]|..] == Interleave(pieces[1..], runs[1..]);
  }

  lemma FillOutLiteral(pattern: string, s: string, runs: seq<string>)
    requires pattern != "" && pattern[0] != '*' && FillsIn(pattern, s, runs)
    ensures s != "" && s[0] == pattern[0]
  {
    assert Split(pattern, '*')[0] == [pattern[0]] + Split(pattern[1..], '*')[0];
  }

  /** The two readings of a glob agree. */
  lemma {:induction false} GlobIsPiecesInOrder(pattern: string, s: string)
    ensures GlobMatches(pattern, s) <==> exists runs :: FillsIn(pattern, s, runs)
    decreases |pattern|, 1
  {
    if pattern == "" {
      assert s == "" ==> FillsIn(pattern, s, []);
    } else if pattern[0] == '*' {
      if GlobMatches(pattern, s) {
        var runs := StarFillsIn(pattern, s);
      }
      if runs :| FillsIn(pattern, s, runs) {
        FilledStarMatches(pattern, s, runs);
      }
    } else {
      LiteralIsInOrder(pattern, s);
    }
  }

  lemma {:induction false} StarFillsIn(pattern: string, s: string) returns (runs: seq<string>)
    requires pattern != "" && pattern[0] == '*' && GlobMatches(pattern, s)
    ensures FillsIn(pattern, s, runs)
    decreases |pattern|, 0
  {
    var k :| 0 <= k <= |s| && NewlineFree(s[..k]) && GlobMatches(pattern[1..], s[k..]);
    GlobIsPiecesInOrder(pattern[1..], s[k..]);
    var rest :| FillsIn(pattern[1..], s[k..], rest);
    FillInStar(pattern, s, k, rest);
    runs := [s[..k]] + rest;
  }

  lemma {:induction false} FilledStarMatches(pattern: string, s: string, runs: seq<string>)
    requires pattern != "" && pattern[0] == '*' && FillsIn(pattern, s, runs)
    ensures GlobMatches(pattern, s)
    decreases |pattern|, 0
  {
    FillOutStar(pattern, s, runs);
    GlobIsPiecesInOrder(pattern[1..], s[|runs[0]|..]);
  }

  lemma {:induction false} LiteralIsInOrder(pattern: string, s: string)
    requires pattern != "" && pattern[0] != '*'
    ensures GlobMatches(pattern, s) <==> exists runs :: FillsIn(pattern, s, runs)
    decreases |pattern|, 0
  {
    if runs :| FillsIn(pattern, s, runs) {
      FillOutLiteral(pattern, s, runs);
    }
    if s != "" && s[0] == pattern[0] {
      GlobIsPiecesInOrder(pattern[1..], s[1..]);
      forall runs ensures FillsIn(pattern[1..], s[1..], runs) <==> FillsIn(pattern, s, runs) {
        FillInLiteral(pattern, s, runs);
      }
    }
  }

  // ----- the compiler -----

  /** Each character of the glob translated in place. */
  function GlobText(pattern: string): string {
    if pattern == "" then ""
    else (if pattern[0] == '*' then ".*" else QuoteChar(pattern[0])) + GlobText(pattern[1..])
  }

  function SubMatcher(pattern: string, compile: Compiler): Result<Option<Regex>, PatternError> {
    if pattern == "" then Ok(None)
    else if IsRegexPattern(pattern) then
      var rest := pattern[3..];
      if !HasPrefix(rest, "^") || !HasSuffix(rest, "$") then Err(RegexNotAnchored)
      else
        match compile(rest)
        case None => Err(InvalidRegex)
        case Some(re) => Ok(Some(re))
    else
      match compile("^" + GlobText(pattern) + "$")
      case None => Err(InvalidGlob)
      case Some(re) => Ok(Some(re))
  }

  /** Every piece quoted and followed by the wildcard, the last one too. */
  function QuotedPieces(pieces: seq<string>): string {
    if pieces == [] then ""
    else QuotedPieces(pieces[..|pieces| - 1]) + QuoteMeta(pieces[|pieces| - 1]) + ".*"
  }

  lemma {:induction false} QuotedPiecesFirst(piece: string, pieces: seq<string>)
    ensures QuotedPieces([piece] + pieces) == QuoteMeta(piece) + ".*" + QuotedPieces(pieces)
    decreases |pieces|
  {
    var all, n := [piece] + pieces, |pieces|;
    assert QuotedPieces(all) == QuotedPieces(all[..n]) + QuoteMeta(all[n]) + ".*";
    if n == 0 {
      assert all[..n] == [];
      assert "" + QuoteMeta(piece) + ".*" == QuoteMeta(piece) + ".*" + "";
    } else {
      QuotedPiecesFirst(piece, pieces[..n - 1]);
      assert all[..n] == [piece] + pieces[..n - 1];
      Assoc(QuoteMeta(piece) + ".*" , QuotedPieces(pieces[..n - 1]), QuoteMeta(all[n]));
      Assoc(QuoteMeta(piece) + ".*" , QuotedPieces(pieces[..n - 1]) + QuoteMeta(all[n]), ".*");
    }
  }

  lemma {:induction false} QuotedPiecesLiteral(c: char, rest: seq<string>)
    requires |rest| > 0
    ensures QuotedPieces([[c] + rest[0]] + rest[1..]) == QuoteChar(c) + QuotedPieces(rest)
  {
    var piece := [c] + rest[0];
    var tail := QuotedPieces(rest[1..]);
    assert piece[1..] == rest[0];
    QuotedPiecesFirst(piece, rest[1..]);
    QuotedPiecesFirst(rest[0], rest[1..]);
    assert rest == [rest[0]] + rest[1..];
    Assoc(QuoteChar(c), QuoteMeta(rest[0]), ".*");
    Assoc(QuoteChar(c), QuoteMeta(rest[0]) + ".*", tail);
  }

  /** Quoting the pieces is translating the pattern, up to the one wildcard too many. */
  lemma {:induction false} QuotedPiecesAreGlobText(pattern: string)
    ensures QuotedPieces(Split(pattern, '*')) == GlobText(pattern) + ".*"
  {
    if pattern == "" {
      QuotedPiecesFirst("", []);
      assert [""] + [] == [""];
      assert QuotedPieces([]) == "";
      assert QuoteMeta("") + ".*" + "" == "" + ".*";
    } else {
      QuotedPiecesAreGlobText(pattern[1..]);
      var rest, text := Split(pattern[1..], '*'), GlobText(pattern[1..]);
      if pattern[0] == '*' {
        QuotedPiecesFirst("", rest);
        assert QuoteMeta("") + ".*" == ".*";
        Assoc(".*", text, ".*");
      } else {
        QuotedPiecesLiteral(pattern[0], rest);
        Assoc(QuoteChar(pattern[0]), text, ".*");
      }
    }
  }

  lemma QuotedPiecesNext(start: string, parts: seq<string>, i: nat)
    requires i < |parts|
    ensures start + QuotedPieces(parts[..i + 1]) == start + QuotedPieces(parts[..i]) + QuoteMeta(parts[i]) + ".*"
  {
    assert parts[..i + 1][..i] == parts[..i];
    Assoc(start, QuotedPieces(parts[..i]), QuoteMeta(parts[i]));
    Assoc(start, QuotedPieces(parts[..i]) + QuoteMeta(parts[i]), ".*");
  }

  lemma TrimLastWildcard(pattern: string)
    ensures TrimSuffix("^" + QuotedPieces(Split(pattern, '*')), ".*") == "^" + GlobText(pattern)
  {
    QuotedPiecesAreGlobText(pattern);
    var body := "^" + GlobText(pattern);
    var b := "^" + QuotedPieces(Split(pattern, '*'));
    assert b == body + ".*";
    assert b[|b| - 2..] == ".*" && b[..|b| - 2] == body;
  }

  /** What the characters of a glob stand for. */
  function GlobPieces(pattern: string): seq<Piece> {
    if pattern == "" then []
    else [if pattern[0] == '*' then Wildcard else Char(pattern[0])] + GlobPieces(pattern[1..])
  }

  /** The translation can be undone, and no operator in it is active but for the wildcards: each of the fourteen
      characters in it is quoted, quotes the next one, or belongs to the ".*" of a star of the pattern. */
  lemma {:induction false} GlobTextIsNeutral(pattern: string)
    ensures IsNeutral(GlobText(pattern)) && Pieces(GlobText(pattern)) == GlobPieces(pattern)
  {
    if pattern != "" {
      var rest := GlobText(pattern[1..]);
      GlobTextIsNeutral(pattern[1..]);
      if pattern[0] == '*' {
        assert (".*" + rest)[2..] == rest;
      } else {
        QuotedCharIsNeutral(pattern[0], rest);
      }
    }
  }

  lemma QuotedCharIsNeutral(c: char, rest: string)
    requires IsNeutral(rest)
    ensures IsNeutral(QuoteChar(c) + rest) && Pieces(QuoteChar(c) + rest) == [Char(c)] + Pieces(rest)
  {
    if |QuoteChar(c)| == 2 {
      assert (QuoteChar(c) + rest)[2..] == rest;
    } else {
      assert (QuoteChar(c) + rest)[1..] == rest;
    }
  }

  /** A text of one anchor at each end, and between them the pattern's pieces with every operator quoted. */
  ghost predicate IsQuotedGlob(pattern: string, s: string) {
    exists body :: s == "^" + body + "$" && IsNeutral(body) && Pieces(body) == GlobPieces(pattern)
  }

  /** The glob branch as the service runs it: a text is built piece by piece, its last wildcard is dropped. */
  method BuildGlobSource(pattern: string) returns (s: string)
    ensures s == "^" + GlobText(pattern) + "$"
    ensures IsQuotedGlob(pattern, s)
  {
    GlobTextIsNeutral(pattern);
    var b := "^";
    var parts := Split(pattern, '*');
    for i := 0 to |parts|
      invariant b == "^" + QuotedPieces(parts[..i])
    {
      QuotedPiecesNext("^", parts, i);
      b := b + QuoteMeta(parts[i]);
      b := b + ".*";
    }
    assert parts[..|parts|] == parts;
    TrimLastWildcard(pattern);
    s := TrimSuffix(b, ".*") + "$";
  }

  method CompileSub(pattern: string, compile: Compiler) returns (matcher: Result<Option<Regex>, PatternError>)
    ensures matcher == SubMatcher(pattern, compile)
  {
    if pattern == "" {
      return Ok(None);
    }
    if HasPrefix(pattern, "re:") {
      var rest := pattern[3..];
      if !HasPrefix(rest, "^") || !HasSuffix(rest, "$") {
        return Err(RegexNotAnchored);
      }
      var re := compile(rest);
      return if re.None? then Err(InvalidRegex) else Ok(Some(re.value));
    }
    var s := BuildGlobSource(pattern);
    var re := compile(s);
    return if re.None? then Err(InvalidGlob) else Ok(Some(re.value));
  }

  // ----- the compiler preserves meaning -----

  function GlobRegex(pattern: string): (r: Regex)
    ensures EndAnchored(r)
  {
    if pattern == "" then End
    else Cat(if pattern[0] == '*' then Star(AnyButNewline, true) else Lit(pattern[0]), GlobRegex(pattern[1..]))
  }

  lemma ParseWildcard(rest: string)
    requires rest != "" && !StartsWithRepetition(rest)
    ensures ParseItem(".*" + rest) == Some((Star(AnyButNewline, true), rest))
  {
    var text := ".*" + rest;
    assert text[1..] == "*" + rest && text[1..][1..] == rest;
  }

  lemma ParseQuoted(c: char, rest: string)
    requires rest != "" && !StartsWithRepetition(rest)
    ensures ParseItem(QuoteChar(c) + rest) == Some((Lit(c), rest))
    ensures !StartsWithRepetition(QuoteChar(c) + rest)
  {
    var text := QuoteChar(c) + rest;
    assert ParseAtom(text) == Some((Lit(c), rest)) by {
      if c in METACHARACTERS {
        assert text[2..] == rest;
      } else {
        assert text[1..] == rest;
      }
    }
  }

  /** The translated text reads back as the pattern's own items: no literal turns into an operator. */
  lemma {:induction false} GlobTextParses(pattern: string)
    ensures ParseSequence(GlobText(pattern) + "$") == Some(GlobRegex(pattern))
    ensures !StartsWithRepetition(GlobText(pattern) + "$")
  {
    if pattern == "" {
      assert GlobText(pattern) + "$" == "$";
    } else {
      GlobTextParses(pattern[1..]);
      var rest := GlobText(pattern[1..]) + "$";
      if pattern[0] == '*' {
        ParseWildcard(rest);
        Assoc(".*", GlobText(pattern[1..]), "$");
      } else {
        ParseQuoted(pattern[0], rest);
        Assoc(QuoteChar(pattern[0]), GlobText(pattern[1..]), "$");
      }
    }
  }

  lemma {:induction false} GlobSourceParses(pattern: string)
    ensures ParseSequence("^" + GlobText(pattern) + "$") == Some(Cat(Begin, GlobRegex(pattern)))
  {
    GlobTextParses(pattern);
    var rest := GlobText(pattern) + "$";
    assert "^" + GlobText(pattern) + "$" == "^" + rest;
    assert ("^" + rest)[1..] == rest;
  }

  lemma {:induction false} StarIsNewlineFreeRun(s: string, i: nat, j: nat)
    requires i <= j <= |s|
    ensures Matches(Star(AnyButNewline, true), s, i, j) <==> NewlineFree(s[i..j])
    decreases j - i
  {
    var star := Star(AnyButNewline, true);
    if i < j {
      StarIsNewlineFreeRun(s, i + 1, j);
      assert s[i..j] == [s[i]] + s[i + 1..j];
      assert Matches(star, s, i, j) <==> CharIn(AnyButNewline, s[i]) && Matches(star, s, i + 1, j) by {
        assert CharIn(AnyButNewline, s[i]) ==> Matches(AnyButNewline, s, i, i + 1);
      }
    }
  }

  lemma {:induction false} GlobRegexMeansGlob(pattern: string, s: string, i: nat)
    requires i <= |s|
    ensures Matches(GlobRegex(pattern), s, i, |s|) <==> GlobMatches(pattern, s[i..])
    decreases |pattern|
  {
    if pattern != "" {
      var rest := GlobRegex(pattern[1..]);
      if pattern[0] == '*' {
        forall m: nat | i <= m <= |s|
          ensures Matches(Star(AnyButNewline, true), s, i, m) <==> NewlineFree(s[i..][..m - i])
          ensures Matches(rest, s, m, |s|) <==> GlobMatches(pattern[1..], s[i..][m - i..])
        {
          StarIsNewlineFreeRun(s, i, m);
          assert s[i..][..m - i] == s[i..m];
          GlobRegexMeansGlob(pattern[1..], s, m);
          assert s[i..][m - i..] == s[m..];
        }
        if GlobMatches(pattern, s[i..]) {
          var k :| 0 <= k <= |s[i..]| && NewlineFree(s[i..][..k]) && GlobMatches(pattern[1..], s[i..][k..]);
          assert (i + k) - i == k;
          assert Matches(Star(AnyButNewline, true), s, i, i + k) && Matches(rest, s, i + k, |s|);
        }
      } else if i < |s| {
        GlobRegexMeansGlob(pattern[1..], s, i + 1);
        assert s[i..][1..] == s[i + 1..];
      }
    }
  }

  /** MAIN: the compiled glob under the full-span test accepts exactly the subjects the glob describes. */
  lemma GlobCompilerPreservesMeaning(pattern: string, compile: Compiler, s: string)
    requires Faithful(compile)
    requires pattern != "" && !IsRegexPattern(pattern)
    ensures SubMatcher(pattern, compile).Ok? <==> compile("^" + GlobText(pattern) + "$").Some?
    ensures SubMatcher(pattern, compile).Ok? ==>
              && SubMatcher(pattern, compile).value.Some?
              && (Spans(SubMatcher(pattern, compile).value.value, s) <==> GlobMatches(pattern, s))
    ensures GlobMatches(pattern, s) <==> exists runs :: FillsIn(pattern, s, runs)
  {
    GlobSourceParses(pattern);
    var tail := GlobRegex(pattern);
    var r := Cat(Begin, tail);
    SpansIsExact(r, s);
    assert Matches(r, s, 0, |s|) <==> Matches(tail, s, 0, |s|) by {
      assert Matches(Begin, s, 0, 0);
    }
    GlobRegexMeansGlob(pattern, s, 0);
    assert s[0..] == s;
    GlobIsPiecesInOrder(pattern, s);
  }

  // ----- regex subs -----

  /** Reading from the left, the last character is one that a backslash quotes. */
  predicate LastIsEscaped(t: string) {
    |t| >= 2 && if t[0] == '\\' then |t| == 2 || LastIsEscaped(t[2..]) else LastIsEscaped(t[1..])
  }

  /** What the textual guard is worth: in the fragment a text that ends with a dollar reads as an
      end-anchored expression exactly when that dollar is not escaped. */
  lemma {:induction false} TrailingDollarAnchors(t: string)
    requires t != "" && t[|t| - 1] == '$' && ParseSequence(t).Some?
    ensures EndAnchored(ParseSequence(t).value) <==> !LastIsEscaped(t)
    decreases |t|
  {
    var atom := ParseAtom(t).value.1;
    var rest := ParseItem(t).value.1;
    assert atom == t[1..] || (t[0] == '\\' && atom == t[2..]);
    if rest != "" {
      TrailingDollarAnchors(rest);
      assert rest == atom || (atom[0] == '*' && rest == atom[1..]);
    }
  }

  /** A regex sub in the fragment whose closing dollar is not escaped means what it says. */
  lemma UnescapedRegexSubIsExact(pattern: string, compile: Compiler, s: string)
    requires Faithful(compile) && IsRegexPattern(pattern)
    requires HasPrefix(pattern[3..], "^") && HasSuffix(pattern[3..], "$") && ParseSequence(pattern[3..]).Some?
    requires !LastIsEscaped(pattern[3..]) && SubMatcher(pattern, compile).Ok?
    ensures SubMatcher(pattern, compile) == Ok(ParseSequence(pattern[3..]))
    ensures ExactOn(ParseSequence(pattern[3..]).value, s)
  {
    TrailingDollarAnchors(pattern[3..]);
    SpansIsExact(ParseSequence(pattern[3..]).value, s);
  }

  /** The guard is textual: it lets "^a.*?\$" pass, whose dollar is escaped. The expression that this text
      stands for refuses a subject that it spans (Regex.EscapedDollarHidesAMatch). */
  lemma GuardLetsEscapedDollarPass(t: string, compile: Compiler, r: Regex)
    requires t == "^a.*?\\$" && compile(t) == Some(r)
    ensures LastIsEscaped(t) && SubMatcher("re:" + t, compile) == Ok(Some(r))
  {
    assert t[|t| - 1..] == "$" && t[..1] == "^";
    assert ("re:" + t)[3..] == t;
    EscapedAt(t, 5);
  }

  /** A last character that a backslash precedes, no other backslash being in sight, is escaped. */
  lemma {:induction false} EscapedAt(t: string, k: nat)
    requires |t| == k + 2 && t[k] == '\\' && forall i :: 0 <= i < k ==> t[i] != '\\'
    ensures LastIsEscaped(t)
    decreases k
  {
    if k > 0 { EscapedAt(t[1..], k - 1); }
  }

  // ----- the static analyses -----

  predicate SubIsExact(pattern: string) {
    pattern != "" && !IsRegexPattern(pattern) && '*' !in pattern
  }

  predicate IsAccountId(s: string) {
    |s| == 12 && forall i :: 0 <= i < 12 ==> '0' <= s[i] <= '9'
  }

  predicate AccountPinnedInARN(pattern: string) {
    && pattern != "" && !IsRegexPattern(pattern)
    && var fields := SplitN(pattern, ':', 6);
       |fields| >= 5 && '*' !in Join(fields[..4], ":") && IsAccountId(fields[4])
  }

  /** A star-free head of a pattern is a literal head of every subject. */
  lemma {:induction false} LiteralHead(head: string, rest: string, s: string)
    requires '*' !in head
    requires GlobMatches(head + rest, s)
    ensures HasPrefix(s, head) && GlobMatches(rest, s[|head|..])
    decreases |head|
  {
    if head == "" {
      assert head + rest == rest;
      assert s[0..] == s;
    } else {
      assert (head + rest)[1..] == head[1..] + rest;
      LiteralHead(head[1..], rest, s[1..]);
      assert s[1..][|head| - 1..] == s[|head|..];
      assert s == [s[0]] + s[1..];
    }
  }

  /** And the other way round: a literal head, then whatever the rest of the pattern matches. */
  lemma {:induction false} LiteralHeadMatches(head: string, rest: string, t: string)
    requires '*' !in head && GlobMatches(rest, t)
    ensures GlobMatches(head + rest, head + t)
    decreases |head|
  {
    if head == "" {
      assert head + rest == rest && head + t == t;
    } else {
      LiteralHeadMatches(head[1..], rest, t);
      assert (head + rest)[1..] == head[1..] + rest;
      assert (head + t)[1..] == head[1..] + t;
    }
  }

  lemma WildcardTakesRun(run: string, rest: string, t: string)
    requires NewlineFree(run) && GlobMatches(rest, t)
    ensures GlobMatches("*" + rest, run + t)
  {
    assert ("*" + rest)[1..] == rest;
    assert (run + t)[..|run|] == run && (run + t)[|run|..] == t;
  }

  /** Why the fields before the account must be literal: a wildcard in the fourth field takes colons too, so
      behind the literal fields `a`, `b` and `c` a pattern that names one account matches subjects whose fifth
      field is any other one; the pattern's account turns up in a later field. */
  lemma WildcardShiftsAccount(a: string, b: string, c: string, account: string, region: string, other: string,
                              tail: string)
    requires forall f :: f in {a, b, c, account} ==> '*' !in f && ':' !in f
    requires forall f :: f in {region, other} ==> ':' !in f
    requires forall f :: f in {region, other, tail} ==> NewlineFree(f)
    ensures var pattern := FourthField(a, b, c, "*" + (":" + account + ":" + "*"));
            var subject := FourthField(a, b, c, region + ":" + (other + ":" + ("y" + (":" + account + ":" + tail))));
            && GlobMatches(pattern, subject)
            && |Split(subject, ':')| >= 5 && Split(subject, ':')[4] == other
            && |Split(pattern, ':')| >= 5 && Split(pattern, ':')[4] == account
  {
    var rest := "y" + (":" + account + ":" + tail);
    FieldAt(a, b, c, region, other, rest);
    FieldAt(a, b, c, "*", account, "*");
    assert "*" + (":" + account + ":" + "*") == "*" + ":" + (account + ":" + "*");
    assert NewlineFree(region) && NewlineFree(other) && NewlineFree(tail);
    ShiftedMatch(account, region + ":" + (other + ":" + "y"), tail);
    assert region + ":" + (other + ":" + "y") + (":" + account + ":" + tail) == region + ":" + (other + ":" + rest);
    FourthFieldMatches(a, b, c, "*" + (":" + account + ":" + "*"), region + ":" + (other + ":" + rest));
  }

  /** A text behind three fields. */
  function FourthField(a: string, b: string, c: string, text: string): string {
    a + ":" + (b + ":" + (c + ":" + text))
  }

  lemma FieldAt(a: string, b: string, c: string, d: string, e: string, rest: string)
    requires forall f :: f in {a, b, c, d, e} ==> ':' !in f
    ensures |Split(FourthField(a, b, c, d + ":" + (e + ":" + rest)), ':')| >= 5
    ensures Split(FourthField(a, b, c, d + ":" + (e + ":" + rest)), ':')[4] == e
  {
    SplitFirstPiece(e, rest, ':');
    SplitFirstPiece(d, e + ":" + rest, ':');
    SplitFirstPiece(c, d + ":" + (e + ":" + rest), ':');
    SplitFirstPiece(b, c + ":" + (d + ":" + (e + ":" + rest)), ':');
    SplitFirstPiece(a, b + ":" + (c + ":" + (d + ":" + (e + ":" + rest))), ':');
  }

  lemma FourthFieldMatches(a: string, b: string, c: string, pattern: string, text: string)
    requires '*' !in a && '*' !in b && '*' !in c && GlobMatches(pattern, text)
    ensures GlobMatches(FourthField(a, b, c, pattern), FourthField(a, b, c, text))
  {
    LiteralHeadMatches(c + ":", pattern, text);
    LiteralHeadMatches(b + ":", c + ":" + pattern, c + ":" + text);
    LiteralHeadMatches(a + ":", b + ":" + (c + ":" + pattern), b + ":" + (c + ":" + text));
  }

  lemma ShiftedMatch(account: string, run: string, tail: string)
    requires '*' !in account && NewlineFree(run) && NewlineFree(tail)
    ensures GlobMatches("*" + (":" + account + ":" + "*"), run + (":" + account + ":" + tail))
  {
    WildcardTakesRun(tail, "", "");
    assert "*" + "" == "*" && tail + "" == tail;
    LiteralHeadMatches(":" + account + ":", "*", tail);
    WildcardTakesRun(run, ":" + account + ":" + "*", ":" + account + ":" + tail);
  }

  lemma ExactGlobMatchesItself(pattern: string, s: string)
    requires '*' !in pattern && GlobMatches(pattern, s)
    ensures s == pattern
  {
    assert pattern + "" == pattern;
    LiteralHead(pattern, "", s);
    assert s == s[..|pattern|] + s[|pattern|..];
  }

  lemma {:induction false} JoinStarFree(fields: seq<string>)
    requires forall f :: f in fields ==> '*' !in f
    ensures '*' !in Join(fields, ":")
  {
    if |fields| > 1 { JoinStarFree(fields[1..]); }
  }

  lemma {:induction false} FieldsOfJoin(fields: seq<string>, c: char)
    requires c !in Join(fields, ":")
    ensures forall f :: f in fields ==> c !in f
  {
    if |fields| > 1 {
      FieldsOfJoin(fields[1..], c);
      assert fields == [fields[0]] + fields[1..];
    }
  }

  lemma PinnedFieldsAreLiteral(pattern: string)
    requires AccountPinnedInARN(pattern)
    ensures forall f :: f in SplitN(pattern, ':', 6)[..5] ==> '*' !in f && ':' !in f
  {
    var fields := SplitN(pattern, ':', 6);
    FieldsOfJoin(fields[..4], '*');
    forall k | 0 <= k < 5 ensures '*' !in fields[k] && ':' !in fields[k] {
      assert k < 4 ==> fields[..4][k] == fields[k];
      assert k == 4 ==> forall c :: c in fields[k] ==> '0' <= c <= '9';
    }
  }

  lemma PrefixAndRest(s: string, head: string)
    requires HasPrefix(s, head)
    ensures s == head + s[|head|..]
  {
  }

  /** Literal fields at the start of a pattern are the fields at the start of every subject. */
  lemma LiteralFieldsAreFixed(fields: seq<string>, tail: string, s: string)
    requires fields != [] && forall f :: f in fields ==> '*' !in f && ':' !in f
    requires tail == "" || tail[0] == ':'
    requires GlobMatches(Join(fields, ":") + tail, s)
    ensures |Split(s, ':')| >= |fields| && Split(s, ':')[..|fields|] == fields
    ensures |Split(Join(fields, ":") + tail, ':')| >= |fields|
    ensures Split(Join(fields, ":") + tail, ':')[..|fields|] == fields
  {
    var head := Join(fields, ":");
    JoinStarFree(fields);
    LiteralHead(head, tail, s);
    PrefixAndRest(s, head);
    SplitPieces(fields, s[|head|..], ':');
    SplitPieces(fields, tail, ':');
  }

  /** Whatever the later wildcards absorb, a pinned glob fixes the first five fields of every subject. */
  lemma PinnedGlobFixesFields(pattern: string, s: string)
    requires AccountPinnedInARN(pattern) && GlobMatches(pattern, s)
    ensures |Split(s, ':')| >= 5 && |Split(pattern, ':')| >= 5
    ensures Split(s, ':')[..5] == Split(pattern, ':')[..5] == SplitN(pattern, ':', 6)[..5]
    ensures IsAccountId(Split(s, ':')[4])
  {
    var five := SplitN(pattern, ':', 6)[..5];
    var tail := SplitNPieces(pattern, ':', 5);
    PinnedFieldsAreLiteral(pattern);
    LiteralFieldsAreFixed(five, tail, s);
    assert Split(s, ':')[4] == Split(s, ':')[..5][4] == five[4];
  }

  /** MAIN: the ARN analysis is sound for the matcher that is actually compiled. */
  lemma PinnedARNIsSound(pattern: string, compile: Compiler, s: string)
    requires Faithful(compile) && AccountPinnedInARN(pattern)
    ensures SubMatcher(pattern, compile).Ok? ==> SubMatcher(pattern, compile).value.Some?
    ensures SubMatcher(pattern, compile).Ok? && Spans(SubMatcher(pattern, compile).value.value, s) ==>
            && |Split(s, ':')| >= 5 && |Split(pattern, ':')| >= 5
            && Split(s, ':')[..5] == Split(pattern, ':')[..5]
            && IsAccountId(Split(s, ':')[4])
  {
    GlobCompilerPreservesMeaning(pattern, compile, s);
    if GlobMatches(pattern, s) {
      PinnedGlobFixesFields(pattern, s);
    }
  }

  // ----- the analyses written out -----

  predicate IsTwelveDigits(s: string) {
    |s| == 12 && forall c :: c in s ==> c in "0123456789"
  }

  /** A text that starts with these five fields. */
  predicate StartsWithFields(s: string, a: string, b: string, c: string, d: string, e: string) {
    var head := FourthField(a, b, c, d + ":" + e);
    HasPrefix(s, head) && (s == head || s[|head|] == ':')
  }

  predicate AreLiteralFields(a: string, b: string, c: string, d: string) {
    forall f :: f in {a, b, c, d} ==> ':' !in f && '*' !in f
  }

  /** Four literal fields, then an account. */
  ghost predicate NamesAccount(s: string) {
    exists a, b, c, d, e ::
      AreLiteralFields(a, b, c, d) && IsTwelveDigits(e) && StartsWithFields(s, a, b, c, d, e)
  }

  lemma TwelveDigitsIff(s: string)
    ensures IsAccountId(s) <==> IsTwelveDigits(s)
  {
    if IsTwelveDigits(s) {
      forall i | 0 <= i < 12 ensures '0' <= s[i] <= '9' {
        assert s[i] in s;
        DigitIff(s[i]);
      }
    } else if IsAccountId(s) {
      forall c | c in s ensures c in "0123456789" {
        DigitIff(c);
      }
    }
  }

  lemma DigitIff(c: char)
    ensures '0' <= c <= '9' <==> c in "0123456789"
  {
    var digits := "0123456789";
    if '0' <= c <= '9' {
      var n := c as int - '0' as int;
      assert digits[n] as int == '0' as int + n;
      assert digits[n] == c;
    }
  }

  lemma FirstFive(a: string, b: string, c: string, d: string, e: string, tail: string)
    requires AreLiteralFields(a, b, c, d) && ':' !in e && (tail == "" || tail[0] == ':')
    ensures var fields := SplitN(FourthField(a, b, c, d + ":" + (e + tail)), ':', 6);
            |fields| >= 5 && fields[..4] == [a, b, c, d] && fields[4] == e
  {
    assert a in {a, b, c, d} && b in {a, b, c, d} && c in {a, b, c, d} && d in {a, b, c, d};
    SplitNFirstField(e, tail, ':', 2);
    SplitNFirstPiece(d, e + tail, ':', 3);
    SplitNFirstPiece(c, d + ":" + (e + tail), ':', 4);
    SplitNFirstPiece(b, c + ":" + (d + ":" + (e + tail)), ':', 5);
    SplitNFirstPiece(a, b + ":" + (c + ":" + (d + ":" + (e + tail))), ':', 6);
  }

  lemma FourthFieldTail(s: string, a: string, b: string, c: string, d: string, e: string) returns (tail: string)
    requires StartsWithFields(s, a, b, c, d, e)
    ensures s == FourthField(a, b, c, d + ":" + (e + tail)) && (tail == "" || tail[0] == ':')
  {
    var head := FourthField(a, b, c, d + ":" + e);
    tail := s[|head|..];
    PrefixAndRest(s, head);
    FourthFieldAppend(a, b, c, d + ":" + e, tail);
    Assoc(d + ":", e, tail);
  }

  lemma FourthFieldAppend(a: string, b: string, c: string, text: string, tail: string)
    ensures FourthField(a, b, c, text) + tail == FourthField(a, b, c, text + tail)
  {
    Assoc(c + ":", text, tail);
    Assoc(b + ":", c + ":" + text, tail);
    Assoc(a + ":", b + ":" + (c + ":" + text), tail);
  }

  lemma JoinFour(a: string, b: string, c: string, d: string)
    ensures Join([a, b, c, d], ":") == FourthField(a, b, c, d)
  {
    JoinCons(c, [d], ":");
    JoinCons(b, [c] + [d], ":");
    JoinCons(a, [b] + ([c] + [d]), ":");
    assert [a] + ([b] + ([c] + [d])) == [a, b, c, d];
  }

  lemma LiteralFour(a: string, b: string, c: string, d: string)
    ensures '*' !in Join([a, b, c, d], ":") <==> '*' !in a && '*' !in b && '*' !in c && '*' !in d
  {
    JoinFour(a, b, c, d);
    assert FourthField(a, b, c, d) == a + ":" + (b + ":" + (c + ":" + d));
  }

  /** The ARN analysis accepts exactly the globs whose first four fields are free of stars and whose fifth is
      twelve digits. */
  lemma AccountPinnedIff(pattern: string)
    ensures AccountPinnedInARN(pattern) <==> !HasPrefix(pattern, "re:") && NamesAccount(pattern)
  {
    if AccountPinnedInARN(pattern) {
      PinnedNamesAccount(pattern);
    }
    if !HasPrefix(pattern, "re:") && NamesAccount(pattern) {
      var a, b, c, d, e :|
        AreLiteralFields(a, b, c, d) && IsTwelveDigits(e) && StartsWithFields(pattern, a, b, c, d, e);
      NamedIsPinned(pattern, a, b, c, d, e);
    }
  }

  lemma NamedIsPinned(pattern: string, a: string, b: string, c: string, d: string, e: string)
    requires !HasPrefix(pattern, "re:")
    requires AreLiteralFields(a, b, c, d) && IsTwelveDigits(e) && StartsWithFields(pattern, a, b, c, d, e)
    ensures AccountPinnedInARN(pattern)
  {
    var tail := FourthFieldTail(pattern, a, b, c, d, e);
    TwelveDigitsIff(e);
    AccountHasNoColon(e);
    FirstFive(a, b, c, d, e, tail);
    LiteralFour(a, b, c, d);
    assert a in {a, b, c, d} && b in {a, b, c, d} && c in {a, b, c, d} && d in {a, b, c, d};
  }

  lemma AccountHasNoColon(e: string)
    requires IsAccountId(e)
    ensures ':' !in e && '*' !in e
  {
  }

  lemma PinnedNamesAccount(pattern: string)
    requires AccountPinnedInARN(pattern)
    ensures NamesAccount(pattern)
  {
    var fields := SplitN(pattern, ':', 6);
    var tail := SplitNPieces(pattern, ':', 5);
    var a, b, c, d, e := fields[0], fields[1], fields[2], fields[3], fields[4];
    var head := FourthField(a, b, c, d + ":" + e);
    PinnedFieldsAreLiteral(pattern);
    assert forall k :: 0 <= k < 5 ==> fields[..5][k] in fields[..5];
    TwelveDigitsIff(e);
    JoinFive(a, b, c, d, e);
    assert fields[..5] == [a, b, c, d, e];
    assert StartsWithFields(pattern, a, b, c, d, e);
  }

  lemma JoinFive(a: string, b: string, c: string, d: string, e: string)
    ensures Join([a, b, c, d, e], ":") == FourthField(a, b, c, d + ":" + e)
  {
    JoinCons(d, [e], ":");
    JoinCons(c, [d] + [e], ":");
    JoinCons(b, [c] + ([d] + [e]), ":");
    JoinCons(a, [b] + ([c] + ([d] + [e])), ":");
    assert [a] + ([b] + ([c] + ([d] + [e]))) == [a, b, c, d, e];
  }

  /** And every subject such a compiled glob accepts starts with the same five fields. */
  lemma PinnedSubjectFixed(pattern: string, compile: Compiler, s: string)
    requires Faithful(compile) && AccountPinnedInARN(pattern) && SubMatcher(pattern, compile).Ok?
    requires SubMatcher(pattern, compile).value.Some? && Spans(SubMatcher(pattern, compile).value.value, s)
    ensures exists a, b, c, d, e ::
              && AreLiteralFields(a, b, c, d) && IsTwelveDigits(e)
              && StartsWithFields(pattern, a, b, c, d, e) && StartsWithFields(s, a, b, c, d, e)
  {
    GlobCompilerPreservesMeaning(pattern, compile, s);
    PinnedNamesAccount(pattern);
    var a, b, c, d, e :| AreLiteralFields(a, b, c, d) && IsTwelveDigits(e) && StartsWithFields(pattern, a, b, c, d, e);
    SubjectStartsAlike(pattern, s, a, b, c, d, e);
  }

  lemma SubjectStartsAlike(pattern: string, s: string, a: string, b: string, c: string, d: string, e: string)
    requires GlobMatches(pattern, s) && StartsWithFields(pattern, a, b, c, d, e)
    requires AreLiteralFields(a, b, c, d) && IsTwelveDigits(e)
    ensures StartsWithFields(s, a, b, c, d, e)
  {
    var head := FourthField(a, b, c, d + ":" + e);
    TwelveDigitsIff(e);
    AccountHasNoColon(e);
    assert a in {a, b, c, d} && b in {a, b, c, d} && c in {a, b, c, d} && d in {a, b, c, d};
    PrefixAndRest(pattern, head);
    LiteralHead(head, pattern[|head|..], s);
    var rest := s[|head|..];
    assert rest == "" || rest[0] == ':';
    PrefixAndRest(s, head);
  }
}
