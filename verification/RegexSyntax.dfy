/** The concrete syntax of the expressions the policy writes itself, and its quoting. */
module RegexSyntax {
  import opened Wrappers
  import opened Regex

  /** What the quoting escapes. */
  const METACHARACTERS := "\\.+*?()|[]{}^$"

  /** What the syntax gives a meaning of its own: the fourteen characters \ . + * ? ( ) | [ ] { } ^ $. */
  predicate IsOperator(c: char) {
    match c
    case '\\' => true
    case '.' => true
    case '+' => true
    case '*' => true
    case '?' => true
    case '(' => true
    case ')' => true
    case '|' => true
    case '[' => true
    case ']' => true
    case '{' => true
    case '}' => true
    case '^' => true
    case '$' => true
    case _ => false
  }

  /** An expression compiler: the service's is Go's regexp.Compile. */
  type Compiler = string -> Option<Regex>

  function QuoteChar(c: char): string {
    if c in METACHARACTERS then ['\\', c] else [c]
  }

  function QuoteMeta(s: string): string {
    if s == "" then "" else QuoteChar(s[0]) + QuoteMeta(s[1..])
  }

  // ----- reading a text for its quotes and wildcards alone -----

  datatype Piece = Char(c: char) | Wildcard

  /** From the left: a backslash quotes the next character, ".*" is a wildcard, anything else stands for itself. */
  function Pieces(t: string): seq<Piece>
    decreases |t|
  {
    if t == "" then []
    else if |t| >= 2 && t[0] == '\\' then [Char(t[1])] + Pieces(t[2..])
    else if |t| >= 2 && t[0] == '.' && t[1] == '*' then [Wildcard] + Pieces(t[2..])
    else [Char(t[0])] + Pieces(t[1..])
  }

  /** In the same reading no operator stands for itself, and only operators are quoted. */
  predicate IsNeutral(t: string)
    decreases |t|
  {
    if t == "" then true
    else if |t| >= 2 && t[0] == '\\' then IsOperator(t[1]) && IsNeutral(t[2..])
    else if |t| >= 2 && t[0] == '.' && t[1] == '*' then IsNeutral(t[2..])
    else !IsOperator(t[0]) && IsNeutral(t[1..])
  }

  // ----- the fragment -----

  function ParseAtom(t: string): (r: Option<(Regex, string)>)
    requires t != ""
    ensures r.Some? ==> |r.value.1| < |t|
  {
    if t[0] == '\\' then
      if |t| >= 2 && IsOperator(t[1]) then Some((Lit(t[1]), t[2..])) else None
    else if t[0] == '.' then Some((AnyButNewline, t[1..]))
    else if t[0] == '^' then Some((Begin, t[1..]))
    else if t[0] == '$' then Some((End, t[1..]))
    else if IsOperator(t[0]) then None
    else Some((Lit(t[0]), t[1..]))
  }

  predicate StartsWithRepetition(t: string) {
    t != "" && t[0] in "*+?{"
  }

  /** An atom, possibly repeated by a single greedy star. */
  function ParseItem(t: string): (r: Option<(Regex, string)>)
    requires t != ""
    ensures r.Some? ==> |r.value.1| < |t|
  {
    match ParseAtom(t)
    case None => None
    case Some((atom, rest)) =>
      if rest == "" || rest[0] != '*' then Some((atom, rest))
      else if atom.Begin? || atom.End? || StartsWithRepetition(rest[1..]) then None
      else Some((Star(atom, true), rest[1..]))
  }

  /** The fragment of sequences of literals, escapes, dots, anchors and starred atoms;
      anything else (groups, alternatives, classes, other repetitions) is None here. */
  function ParseSequence(t: string): Option<Regex>
    decreases |t|
  {
    if t == "" then Some(Empty)
    else
      match ParseItem(t)
      case None => None
      case Some((item, rest)) =>
        if rest == "" then Some(item)
        else
          match ParseSequence(rest)
          case None => None
          case Some(tail) => Some(Cat(item, tail))
  }

  /** A compiler that reads the fragment as written. It may refuse texts, for their size say, and of texts
      outside the fragment it may make anything. */
  ghost predicate Faithful(compile: Compiler) {
    forall t :: ParseSequence(t).Some? && compile(t).Some? ==> compile(t) == ParseSequence(t)
  }

  /** The assumption can be met by a compiler that refuses nothing in the fragment: its own reader. */
  lemma FaithfulCompilerExists()
    ensures exists compile: Compiler :: Faithful(compile) && forall t :: ParseSequence(t).Some? ==> compile(t).Some?
  {
    assert Faithful(t => ParseSequence(t));
  }
}
