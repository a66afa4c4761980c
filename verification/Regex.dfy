/** Regular expressions under leftmost-first (Perl-like) search, as Go's regexp package defines it. */
module Regex {
  import opened Wrappers

  /** `Class` is any set of characters, so `.` is the complement of the newline.
      A greedy `Star` prefers another iteration, a lazy one prefers to stop. */
  datatype Regex =
    | Empty
    | Lit(c: char)
    | AnyButNewline
    | Class(chars: set<char>, negated: bool)
    | Begin
    | End
    | Cat(left: Regex, right: Regex)
    | Alt(first: Regex, second: Regex)
    | Star(body: Regex, greedy: bool)

  predicate CharIn(r: Regex, c: char) {
    match r
    case Lit(d) => c == d
    case AnyButNewline => c != '\n'
    case Class(chars, negated) => (c in chars) != negated
    case _ => false
  }

  predicate Within(ends: seq<nat>, low: nat, high: nat) {
    forall k :: 0 <= k < |ends| ==> low <= ends[k] <= high
  }

  // ----- search: the ends of all matches starting at i, in order of preference -----

  function Ends(r: Regex, s: string, i: nat): (ends: seq<nat>)
    requires i <= |s|
    ensures Within(ends, i, |s|)
    decreases |s| - i, r
  {
    match r
    case Empty => [i]
    case Begin => if i == 0 then [i] else []
    case End => if i == |s| then [i] else []
    case Cat(a, b) => Continue(r, s, i, Ends(a, s, i))
    case Alt(a, b) => Ends(a, s, i) + Ends(b, s, i)
    case Star(a, greedy) =>
      var more := Continue(r, s, i, Ends(a, s, i));
      if greedy then more + [i] else [i] + more
    case _ => if i < |s| && CharIn(r, s[i]) then [i + 1] else []
  }

  /** What follows each end of a concatenation's left part, or of one iteration of a star.
      An iteration that consumed nothing stops the star. */
  function Continue(r: Regex, s: string, i: nat, froms: seq<nat>): (ends: seq<nat>)
    requires r.Cat? || r.Star?
    requires i <= |s|
    requires Within(froms, i, |s|)
    ensures Within(ends, i, |s|)
    decreases |s| - i, r, |froms|
  {
    if froms == [] then []
    else
      After(r, s, i, froms[0]) + Continue(r, s, i, froms[1..])
  }

  function After(r: Regex, s: string, i: nat, m: nat): (ends: seq<nat>)
    requires r.Cat? || r.Star?
    requires i <= m <= |s|
    ensures Within(ends, i, |s|)
    decreases |s| - i, r, 0
  {
    if r.Cat? then Ends(r.right, s, m)
    else if m > i then Ends(r, s, m)
    else [i]
  }

  /** The leftmost match at or after `from`, and among those at that start the preferred one. */
  function Find(r: Regex, s: string, from: nat): (loc: Option<(nat, nat)>)
    requires from <= |s|
    ensures loc.Some? ==> from <= loc.value.0 <= loc.value.1 <= |s|
    decreases |s| - from
  {
    var ends := Ends(r, s, from);
    if ends != [] then Some((from, ends[0]))
    else if from < |s| then Find(r, s, from + 1)
    else None
  }

  /** The acceptance test of the policy: the leftmost-first match must span the whole string. */
  predicate Spans(r: Regex, s: string) {
    var loc := Find(r, s, 0);
    loc.Some? && loc.value.0 == 0 && loc.value.1 == |s|
  }

  // ----- meaning: which stretches of the string an expression matches, with no preference -----

  ghost predicate Matches(r: Regex, s: string, i: nat, j: nat)
    requires i <= j <= |s|
    decreases j - i, r
  {
    match r
    case Empty => i == j
    case Begin => i == j == 0
    case End => i == j == |s|
    case Cat(a, b) => exists m :: i <= m <= j && Matches(a, s, i, m) && Matches(b, s, m, j)
    case Alt(a, b) => Matches(a, s, i, j) || Matches(b, s, i, j)
    case Star(a, _) => i == j || exists m :: i < m <= j && Matches(a, s, i, m) && Matches(r, s, m, j)
    case _ => j == i + 1 && CharIn(r, s[i])
  }

  lemma {:induction false} ContinueMembers(r: Regex, s: string, i: nat, froms: seq<nat>, j: nat)
    requires r.Cat? || r.Star?
    requires i <= |s|
    requires Within(froms, i, |s|)
    ensures j in Continue(r, s, i, froms) <==>
            exists k :: 0 <= k < |froms| && j in After(r, s, i, froms[k])
    decreases |froms|
  {
    if froms != [] {
      var rest := froms[1..];
      ContinueMembers(r, s, i, rest, j);
      assert forall k :: 0 < k < |froms| ==> froms[k] == rest[k - 1];
      if k :| 0 <= k < |rest| && j in After(r, s, i, rest[k]) {
        assert froms[k + 1] == rest[k];
      }
    }
  }

  /** The search explores exactly the matches: preference only orders them. */
  lemma {:induction false} EndsAreMatches(r: Regex, s: string, i: nat, j: nat)
    requires i <= j <= |s|
    ensures j in Ends(r, s, i) <==> Matches(r, s, i, j)
    decreases |s| - i, r
  {
    match r
    case Cat(a, b) =>
      ContinueMembers(r, s, i, Ends(a, s, i), j);
      forall m: nat | i <= m <= j
        ensures m in Ends(a, s, i) <==> Matches(a, s, i, m)
        ensures j in After(r, s, i, m) <==> Matches(b, s, m, j)
      {
        EndsAreMatches(a, s, i, m);
        EndsAreMatches(b, s, m, j);
      }
    case Alt(a, b) =>
      EndsAreMatches(a, s, i, j);
      EndsAreMatches(b, s, i, j);
    case Star(a, greedy) =>
      ContinueMembers(r, s, i, Ends(a, s, i), j);
      forall m: nat | i < m <= j
        ensures m in Ends(a, s, i) <==> Matches(a, s, i, m)
        ensures j in After(r, s, i, m) <==> Matches(r, s, m, j)
      {
        EndsAreMatches(a, s, i, m);
        EndsAreMatches(r, s, m, j);
      }
    case _ =>
  }

  /** Soundness, for every expression: what the test accepts, some match of the expression spans. */
  lemma SpansIsSound(r: Regex, s: string)
    requires Spans(r, s)
    ensures Matches(r, s, 0, |s|)
  {
    EndsAreMatches(r, s, 0, |s|);
  }

  /** Every way through the expression ends with the end-of-text assertion. */
  predicate EndAnchored(r: Regex) {
    match r
    case End => true
    case Cat(_, b) => EndAnchored(b)
    case Alt(a, b) => EndAnchored(a) && EndAnchored(b)
    case _ => false
  }

  lemma {:induction false} EndAnchoredMatches(r: Regex, s: string, i: nat, j: nat)
    requires i <= j <= |s|
    requires EndAnchored(r) && Matches(r, s, i, j)
    ensures j == |s|
    decreases r
  {
    match r
    case Cat(a, b) =>
      var m :| i <= m <= j && Matches(a, s, i, m) && Matches(b, s, m, j);
      EndAnchoredMatches(b, s, m, j);
    case Alt(a, b) =>
      if Matches(a, s, i, j) { EndAnchoredMatches(a, s, i, j); } else { EndAnchoredMatches(b, s, i, j); }
    case _ =>
  }

  /** Exactness for end-anchored expressions: preference cannot hide a spanning match. */
  lemma SpansIsExact(r: Regex, s: string)
    requires EndAnchored(r)
    ensures Spans(r, s) <==> Matches(r, s, 0, |s|)
  {
    EndsAreMatches(r, s, 0, |s|);
    if |s| in Ends(r, s, 0) {
      var first := Ends(r, s, 0)[0];
      EndsAreMatches(r, s, 0, first);
      EndAnchoredMatches(r, s, 0, first);
    }
  }

  /** The shape a regex sub is usually written in: begin, body, end. */
  lemma BracketedIsExact(body: Regex, s: string)
    ensures Spans(Cat(Begin, Cat(body, End)), s) <==> Matches(body, s, 0, |s|)
  {
    var inner := Cat(body, End);
    var r := Cat(Begin, inner);
    SpansIsExact(r, s);
    if Matches(body, s, 0, |s|) {
      assert Matches(End, s, |s|, |s|);
      assert Matches(inner, s, 0, |s|);
      assert Matches(Begin, s, 0, 0);
    }
    if Matches(r, s, 0, |s|) {
      assert Matches(inner, s, 0, |s|);
      var m :| 0 <= m <= |s| && Matches(body, s, 0, m) && Matches(End, s, m, |s|);
    }
  }

  /** Exactly how a top-level alternation is decided: once the first alternative matches anything at the
      start, it alone decides, even when it cannot span the string and the second one could. */
  lemma FirstAlternativeDecides(a: Regex, b: Regex, s: string)
    ensures Spans(Alt(a, b), s) <==>
            if exists j :: 0 <= j <= |s| && Matches(a, s, 0, j) then Spans(a, s) else Spans(b, s)
  {
    SpansLooksAtFirstEnd(Alt(a, b), s);
    SpansLooksAtFirstEnd(a, s);
    SpansLooksAtFirstEnd(b, s);
    assert Ends(Alt(a, b), s, 0) == Ends(a, s, 0) + Ends(b, s, 0);
    HasEndIffMatches(a, s);
  }

  lemma SpansLooksAtFirstEnd(r: Regex, s: string)
    ensures Spans(r, s) <==> Ends(r, s, 0) != [] && Ends(r, s, 0)[0] == |s|
  {
  }

  lemma HasEndIffMatches(r: Regex, s: string)
    ensures Ends(r, s, 0) != [] <==> exists j :: 0 <= j <= |s| && Matches(r, s, 0, j)
  {
    if Ends(r, s, 0) != [] {
      EndsAreMatches(r, s, 0, Ends(r, s, 0)[0]);
    }
    if j :| 0 <= j <= |s| && Matches(r, s, 0, j) {
      EndsAreMatches(r, s, 0, j);
    }
  }

  lemma TwoCharactersThenEnd(s: string)
    requires |s| == 2
    ensures Matches(Cat(Lit(s[0]), Cat(Lit(s[1]), End)), s, 0, 2)
  {
    var tail := Cat(Lit(s[1]), End);
    assert Matches(End, s, 2, 2) && Matches(Lit(s[1]), s, 1, 2);
    assert Matches(tail, s, 1, 2) && Matches(Lit(s[0]), s, 0, 1);
  }

  lemma FirstCharacterOnly(s: string)
    requires |s| == 2
    ensures Matches(Cat(Begin, Lit(s[0])), s, 0, 1) && !Spans(Cat(Begin, Lit(s[0])), s)
  {
    var r := Cat(Begin, Lit(s[0]));
    assert Matches(Begin, s, 0, 0) && Matches(Lit(s[0]), s, 0, 1);
    if Spans(r, s) {
      SpansIsSound(r, s);
    }
  }

  /** So "^a|ab$" refuses "ab", although its second alternative spans it; likewise any two characters. */
  lemma AlternationHidesAMatch(s: string)
    requires |s| == 2
    ensures var r := Alt(Cat(Begin, Lit(s[0])), Cat(Lit(s[0]), Cat(Lit(s[1]), End)));
            Matches(r, s, 0, 2) && !Spans(r, s)
  {
    var left, right := Cat(Begin, Lit(s[0])), Cat(Lit(s[0]), Cat(Lit(s[1]), End));
    TwoCharactersThenEnd(s);
    FirstCharacterOnly(s);
    FirstAlternativeDecides(left, right, s);
    assert 0 <= 1 <= |s| && Matches(left, s, 0, 1);
    assert Matches(Alt(left, right), s, 0, 2) <== Matches(right, s, 0, |s|);
  }

  // ----- preference: which of the matches the search chooses -----

  /** Some match from i ends where it is wanted. */
  ghost predicate CanEnd(r: Regex, s: string, i: nat, wanted: set<nat>) {
    exists j :: i <= j <= |s| && j in wanted && Matches(r, s, i, j)
  }

  /** Where a left part may end so that `r` can still end where it is wanted. */
  ghost function Leading(r: Regex, s: string, i: nat, wanted: set<nat>): set<nat> {
    set m: nat | i <= m <= |s| && CanEnd(r, s, m, wanted)
  }

  /** Where one iteration of a star may end: here, which stops it, or further on, where it starts over. */
  ghost function Again(r: Regex, s: string, i: nat, wanted: set<nat>): set<nat> {
    set m: nat | i <= m <= |s| && if m == i then i in wanted else CanEnd(r, s, m, wanted)
  }

  /** Of the matches from i that end where it is wanted, the one that leftmost-first preference chooses ends at j:
      an earlier alternative before a later one, more iterations before fewer or, lazily, fewer before more,
      and of two parts in sequence the left one's preference first. */
  ghost predicate Chosen(r: Regex, s: string, i: nat, wanted: set<nat>, j: nat)
    requires i <= j <= |s|
    decreases |s| - i, r
  {
    match r
    case Alt(a, b) => Chosen(a, s, i, wanted, j) || (!CanEnd(a, s, i, wanted) && Chosen(b, s, i, wanted, j))
    case Cat(a, b) =>
      exists m :: i <= m <= j && Chosen(a, s, i, Leading(b, s, i, wanted), m) && Chosen(b, s, m, wanted, j)
    case Star(a, greedy) =>
      var again := Again(r, s, i, wanted);
      if (if greedy then CanEnd(a, s, i, again) else i !in wanted) then
        exists m :: i <= m <= j && Chosen(a, s, i, again, m) && if m == i then j == i else Chosen(r, s, m, wanted, j)
      else j == i && i in wanted
    case _ => Matches(r, s, i, j) && j in wanted
  }

  function FirstIn(ends: seq<nat>, wanted: set<nat>): (j: Option<nat>)
    ensures j.Some? ==> j.value in ends && j.value in wanted
    ensures j.None? <==> forall k :: k in ends ==> k !in wanted
  {
    if ends == [] then None
    else if ends[0] in wanted then Some(ends[0])
    else FirstIn(ends[1..], wanted)
  }

  lemma {:induction false} FirstInConcat(a: seq<nat>, b: seq<nat>, wanted: set<nat>)
    ensures FirstIn(a + b, wanted) == if FirstIn(a, wanted).Some? then FirstIn(a, wanted) else FirstIn(b, wanted)
  {
    if a == [] {
      assert a + b == b;
    } else {
      assert (a + b)[1..] == a[1..] + b;
      FirstInConcat(a[1..], b, wanted);
    }
  }

  /** The first end reached through the first of `froms` from which the rest can go on. */
  lemma {:induction false} FirstContinued(r: Regex, s: string, i: nat, froms: seq<nat>, on: set<nat>, wanted: set<nat>)
    requires r.Cat? || r.Star?
    requires i <= |s|
    requires Within(froms, i, |s|)
    requires forall m :: i <= m <= |s| ==> (m in on <==> FirstIn(After(r, s, i, m), wanted).Some?)
    ensures FirstIn(froms, on).Some? ==> i <= FirstIn(froms, on).value <= |s|
    ensures FirstIn(Continue(r, s, i, froms), wanted)
         == if FirstIn(froms, on).Some? then FirstIn(After(r, s, i, FirstIn(froms, on).value), wanted) else None
    decreases |froms|
  {
    if froms != [] {
      FirstInConcat(After(r, s, i, froms[0]), Continue(r, s, i, froms[1..]), wanted);
      FirstContinued(r, s, i, froms[1..], on, wanted);
    }
  }

  lemma CanEndIffFound(r: Regex, s: string, i: nat, wanted: set<nat>)
    requires i <= |s|
    ensures CanEnd(r, s, i, wanted) <==> FirstIn(Ends(r, s, i), wanted).Some?
  {
    forall j: nat | i <= j <= |s| ensures j in Ends(r, s, i) <==> Matches(r, s, i, j) {
      EndsAreMatches(r, s, i, j);
    }
  }

  /** MAIN: the search finds the chosen match, for every expression and every condition on its end. */
  lemma {:induction false} ChosenIsFirst(r: Regex, s: string, i: nat, wanted: set<nat>, j: nat)
    requires i <= j <= |s|
    ensures Chosen(r, s, i, wanted, j) <==> FirstIn(Ends(r, s, i), wanted) == Some(j)
    decreases |s| - i, r
  {
    match r
    case Alt(a, b) =>
      FirstInConcat(Ends(a, s, i), Ends(b, s, i), wanted);
      CanEndIffFound(a, s, i, wanted);
      ChosenIsFirst(a, s, i, wanted, j);
      ChosenIsFirst(b, s, i, wanted, j);
    case Cat(a, b) =>
      ChosenInSequence(r, s, i, wanted, j);
    case Star(a, greedy) =>
      ChosenInStar(r, s, i, wanted, j);
    case _ =>
  }

  lemma {:induction false} ChosenInSequence(r: Regex, s: string, i: nat, wanted: set<nat>, j: nat)
    requires r.Cat? && i <= j <= |s|
    ensures Chosen(r, s, i, wanted, j) <==> FirstIn(Ends(r, s, i), wanted) == Some(j)
    decreases |s| - i, r, 0
  {
    var on := Leading(r.right, s, i, wanted);
    forall m: nat | i <= m <= |s| ensures m in on <==> FirstIn(After(r, s, i, m), wanted).Some? {
      CanEndIffFound(r.right, s, m, wanted);
    }
    FirstContinued(r, s, i, Ends(r.left, s, i), on, wanted);
    forall m: nat | i <= m <= j
      ensures Chosen(r.left, s, i, on, m) <==> FirstIn(Ends(r.left, s, i), on) == Some(m)
      ensures Chosen(r.right, s, m, wanted, j) <==> FirstIn(After(r, s, i, m), wanted) == Some(j)
    {
      ChosenIsFirst(r.left, s, i, on, m);
      ChosenIsFirst(r.right, s, m, wanted, j);
    }
  }

  lemma {:induction false} ChosenInStar(r: Regex, s: string, i: nat, wanted: set<nat>, j: nat)
    requires r.Star? && i <= j <= |s|
    ensures Chosen(r, s, i, wanted, j) <==> FirstIn(Ends(r, s, i), wanted) == Some(j)
    decreases |s| - i, r, 0
  {
    var on, ends := Again(r, s, i, wanted), Ends(r.body, s, i);
    forall m: nat | i <= m <= |s| ensures m in on <==> FirstIn(After(r, s, i, m), wanted).Some? {
      CanEndIffFound(r, s, m, wanted);
    }
    FirstContinued(r, s, i, ends, on, wanted);
    CanEndIffFound(r.body, s, i, on);
    forall m: nat | i <= m <= j
      ensures Chosen(r.body, s, i, on, m) <==> FirstIn(ends, on) == Some(m)
      ensures m > i ==> (Chosen(r, s, m, wanted, j) <==> FirstIn(After(r, s, i, m), wanted) == Some(j))
    {
      ChosenIsFirst(r.body, s, i, on, m);
      if m > i {
        ChosenIsFirst(r, s, m, wanted, j);
      }
    }
    var more := Continue(r, s, i, ends);
    FirstInConcat(more, [i], wanted);
    FirstInConcat([i], more, wanted);
  }

  // ----- when the full-span test is exact -----

  /** The test accepts exactly when some match spans the string. */
  ghost predicate ExactOn(r: Regex, s: string) {
    Spans(r, s) <==> Matches(r, s, 0, |s|)
  }

  function UpTo(n: nat): (r: set<nat>)
    ensures forall m: nat :: m in r <==> m <= n
  {
    if n == 0 then {0} else UpTo(n - 1) + {n}
  }

  function Anywhere(s: string): set<nat> {
    UpTo(|s|)
  }

  /** The match chosen at the start of the string ends before its end. */
  ghost predicate FallsShort(r: Regex, s: string) {
    exists j :: 0 <= j < |s| && Chosen(r, s, 0, Anywhere(s), j)
  }

  lemma SpansIffChosen(r: Regex, s: string)
    ensures Spans(r, s) <==> Chosen(r, s, 0, Anywhere(s), |s|)
  {
    ChosenIsFirst(r, s, 0, Anywhere(s), |s|);
  }

  /** MAIN: for every expression and string the test is exact unless a spanning match exists and
      preference chooses one that falls short. */
  lemma ExactUnlessPreferenceFallsShort(r: Regex, s: string)
    ensures ExactOn(r, s) <==> !(FallsShort(r, s) && Matches(r, s, 0, |s|))
  {
    SpansIffChosen(r, s);
    EndsAreMatches(r, s, 0, |s|);
    forall j: nat | j <= |s|
      ensures Chosen(r, s, 0, Anywhere(s), j) <==> FirstIn(Ends(r, s, 0), Anywhere(s)) == Some(j)
    {
      ChosenIsFirst(r, s, 0, Anywhere(s), j);
    }
  }

  /** For an alternation of exact alternatives: exact unless only the second one spans the string
      and the first one matches something shorter. */
  lemma AlternationIsExactIff(a: Regex, b: Regex, s: string)
    requires ExactOn(a, s) && ExactOn(b, s)
    ensures ExactOn(Alt(a, b), s) <==>
            !(&& Matches(b, s, 0, |s|) && !Matches(a, s, 0, |s|)
              && exists j :: 0 <= j < |s| && Matches(a, s, 0, j))
  {
    FirstAlternativeDecides(a, b, s);
    MatchesAtStart(a, s);
  }

  lemma MatchesAtStart(a: Regex, s: string)
    ensures (exists j :: 0 <= j <= |s| && Matches(a, s, 0, j)) <==>
            Matches(a, s, 0, |s|) || exists j :: 0 <= j < |s| && Matches(a, s, 0, j)
  {
  }

  /** The test repaired: with an end assertion after it every expression is decided exactly. */
  lemma EndAssertionMakesExact(r: Regex, s: string)
    ensures Spans(Cat(r, End), s) <==> Matches(r, s, 0, |s|)
    ensures ExactOn(r, s) <==> (Spans(Cat(r, End), s) ==> Spans(r, s))
  {
    SpansIsExact(Cat(r, End), s);
    if Matches(r, s, 0, |s|) {
      assert Matches(End, s, |s|, |s|);
    }
    if Spans(r, s) {
      SpansIsSound(r, s);
    }
  }

  /** An escaped dollar anchors nothing: "^a.*?\$" falls short of "a$$". */
  lemma EscapedDollarHidesAMatch(r: Regex, s: string)
    requires r == Cat(Begin, Cat(Lit('a'), Cat(Star(AnyButNewline, false), Lit('$')))) && s == "a$$"
    ensures !EndAnchored(r) && Matches(r, s, 0, 3) && !Spans(r, s)
  {
    var star, dollar := Star(AnyButNewline, false), Lit('$');
    var tail := Cat(star, dollar);
    assert Matches(star, s, 2, 2) && Matches(AnyButNewline, s, 1, 2);
    assert Matches(star, s, 1, 2) && Matches(dollar, s, 2, 3);
    assert Matches(tail, s, 1, 3) && Matches(Lit('a'), s, 0, 1);
    assert Matches(Cat(Lit('a'), tail), s, 0, 3) && Matches(Begin, s, 0, 0);
    FirstStretch(s);
  }

  lemma FirstOfSequence(a: Regex, b: Regex, s: string, i: nat, m: nat)
    requires i <= m <= |s|
    requires Ends(a, s, i) != [] && Ends(a, s, i)[0] == m && Ends(b, s, m) != []
    ensures Ends(Cat(a, b), s, i) != [] && Ends(Cat(a, b), s, i)[0] == Ends(b, s, m)[0]
  {
    var r, froms := Cat(a, b), Ends(a, s, i);
    assert Ends(r, s, i) == After(r, s, i, m) + Continue(r, s, i, froms[1..]);
    assert After(r, s, i, m) == Ends(b, s, m);
  }

  /** The lazy star stops at once, so the first dollar ends the match. */
  lemma FirstStretch(s: string)
    requires s == "a$$"
    ensures !Spans(Cat(Begin, Cat(Lit('a'), Cat(Star(AnyButNewline, false), Lit('$')))), s)
  {
    var star, dollar := Star(AnyButNewline, false), Lit('$');
    var tail := Cat(star, dollar);
    var rest := Cat(Lit('a'), tail);
    assert Ends(dollar, s, 1) == [2];
    FirstOfSequence(star, dollar, s, 1, 1);
    FirstOfSequence(Lit('a'), tail, s, 0, 1);
    FirstOfSequence(Begin, rest, s, 0, 0);
  }

  /** What the one-character expressions accept. */
  lemma OneCharacter(chars: set<char>, c: char, d: char)
    ensures Spans(Class(chars, false), [c]) <==> c in chars
    ensures Spans(Class(chars, true), [c]) <==> c !in chars
    ensures Spans(Lit(d), [c]) <==> c == d
    ensures Spans(AnyButNewline, [c]) <==> c != '\n'
  {
    SpansLooksAtFirstEnd(Class(chars, false), [c]);
    SpansLooksAtFirstEnd(Class(chars, true), [c]);
    SpansLooksAtFirstEnd(Lit(d), [c]);
    SpansLooksAtFirstEnd(AnyButNewline, [c]);
  }
}
