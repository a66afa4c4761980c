/** The string operations the service is written with: splitting, joining, prefixes and suffixes.
    Strings are character sequences; encodings are not modelled. */
module Text {
  predicate HasPrefix(s: string, prefix: string) {
    |prefix| <= |s| && s[..|prefix|] == prefix
  }

  predicate HasSuffix(s: string, suffix: string) {
    |suffix| <= |s| && s[|s| - |suffix|..] == suffix
  }

  function TrimSuffix(s: string, suffix: string): (r: string)
    ensures HasSuffix(s, suffix) ==> r + suffix == s
    ensures !HasSuffix(s, suffix) ==> r == s
  {
    if HasSuffix(s, suffix) then s[..|s| - |suffix|] else s
  }

  /** All fields of `s` between separators; the empty string has one empty field. */
  function Split(s: string, sep: char): (r: seq<string>)
    ensures |r| > 0
    ensures forall f :: f in r ==> sep !in f
  {
    if s == "" then [""]
    else
      var rest := Split(s[1..], sep);
      if s[0] == sep then [""] + rest else [[s[0]] + rest[0]] + rest[1..]
  }

  /** At most `n` fields: the last one keeps its separators. */
  function SplitN(s: string, sep: char, n: nat): (r: seq<string>)
    requires n > 0
    ensures 0 < |r| <= n
    ensures forall i :: 0 <= i < |r| && i < n - 1 ==> sep !in r[i]
    decreases |s|
  {
    if n == 1 then [s]
    else if s == "" then [""]
    else if s[0] == sep then [""] + SplitN(s[1..], sep, n - 1)
    else
      var rest := SplitN(s[1..], sep, n);
      [[s[0]] + rest[0]] + rest[1..]
  }

  function Join(fields: seq<string>, sep: string): string {
    if fields == [] then ""
    else if |fields| == 1 then fields[0]
    else fields[0] + sep + Join(fields[1..], sep)
  }

  /** Joining back what was split is the identity. */
  lemma {:induction false} JoinSplit(s: string, sep: char)
    ensures Join(Split(s, sep), [sep]) == s
  {
    if s == "" {
    } else {
      JoinSplit(s[1..], sep);
      var rest := Split(s[1..], sep);
      var all := Split(s, sep);
      if s[0] == sep {
        assert all[1..] == rest;
      } else {
        assert all[1..] == rest[1..];
      }
      assert s == [s[0]] + s[1..];
    }
  }

  /** Extending the first field extends the join. */
  lemma JoinFirst(head: string, fields: seq<string>, sep: string)
    requires |fields| > 0
    ensures Join([head + fields[0]] + fields[1..], sep) == head + Join(fields, sep)
  {
    var all := [head + fields[0]] + fields[1..];
    assert all[1..] == fields[1..];
    if |fields| > 1 {
      Assoc(head, fields[0], sep + Join(fields[1..], sep));
      Assoc(fields[0], sep, Join(fields[1..], sep));
      Assoc(head + fields[0], sep, Join(fields[1..], sep));
    }
  }

  lemma JoinCons(field: string, fields: seq<string>, sep: string)
    requires |fields| > 0
    ensures Join([field] + fields, sep) == field + sep + Join(fields, sep)
  {
    assert ([field] + fields)[1..] == fields;
  }

  lemma Assoc(a: string, b: string, c: string)
    ensures a + b + c == a + (b + c)
  {
  }

  /** With a separator-free head, the first field is the head extended by the first field of the rest. */
  lemma {:induction false} SplitPrepend(head: string, tail: string, sep: char)
    requires sep !in head
    ensures Split(head + tail, sep) == [head + Split(tail, sep)[0]] + Split(tail, sep)[1..]
  {
    var fields := Split(tail, sep);
    if head == "" {
      assert head + tail == tail;
      assert head + fields[0] == fields[0];
    } else {
      SplitPrepend(head[1..], tail, sep);
      assert (head + tail)[1..] == head[1..] + tail;
      assert head == [head[0]] + head[1..];
      Assoc([head[0]], head[1..], fields[0]);
    }
  }

  /** The fields of separator-free pieces followed by a tail that is empty or starts with the separator:
      exactly the pieces, then the fields of the tail after its leading empty one. */
  lemma {:induction false} SplitPieces(fields: seq<string>, tail: string, sep: char)
    requires |fields| > 0
    requires forall f :: f in fields ==> sep !in f
    requires tail == "" || tail[0] == sep
    ensures Split(Join(fields, [sep]) + tail, sep) == fields + Split(tail, sep)[1..]
  {
    assert Split(tail, sep)[0] == "";
    if |fields| == 1 {
      SplitPrepend(fields[0], tail, sep);
      assert fields[0] + Split(tail, sep)[0] == fields[0];
      assert fields == [fields[0]];
    } else {
      SplitPieces(fields[1..], tail, sep);
      SplitFirstPiece(fields[0], Join(fields[1..], [sep]) + tail, sep);
      Assoc(fields[0] + [sep], Join(fields[1..], [sep]), tail);
      assert fields == [fields[0]] + fields[1..];
    }
  }

  lemma SplitFirstPiece(field: string, rest: string, sep: char)
    requires sep !in field
    ensures Split(field + [sep] + rest, sep) == [field] + Split(rest, sep)
  {
    Assoc(field, [sep], rest);
    SplitPrepend(field, [sep] + rest, sep);
    assert ([sep] + rest)[1..] == rest;
    assert Split([sep] + rest, sep) == [""] + Split(rest, sep);
    assert field + "" == field;
  }

  lemma {:induction false} SplitNFirstPiece(field: string, rest: string, sep: char, n: nat)
    requires sep !in field && n > 1
    ensures SplitN(field + [sep] + rest, sep, n) == [field] + SplitN(rest, sep, n - 1)
    decreases |field|
  {
    var s := field + [sep] + rest;
    if field == "" {
      assert s[1..] == rest;
    } else {
      assert s[1..] == field[1..] + [sep] + rest;
      SplitNFirstPiece(field[1..], rest, sep, n);
      assert [field[0]] + field[1..] == field;
    }
  }

  lemma {:induction false} SplitNFirstField(field: string, tail: string, sep: char, n: nat)
    requires sep !in field && n > 1 && (tail == "" || tail[0] == sep)
    ensures SplitN(field + tail, sep, n)[0] == field
    decreases |field|
  {
    var s := field + tail;
    if field == "" {
      assert s == tail;
    } else {
      assert s[1..] == field[1..] + tail;
      SplitNFirstField(field[1..], tail, sep, n);
      assert [field[0]] + field[1..] == field;
    }
  }

  /** A text of exactly three fields. */
  predicate InThree(s: string, sep: char, a: string, b: string, c: string) {
    sep !in a && sep !in b && sep !in c && s == a + [sep] + (b + [sep] + c)
  }

  lemma SplitAlone(field: string, sep: char)
    requires sep !in field
    ensures Split(field, sep) == [field]
  {
    SplitPrepend(field, "", sep);
    assert field + "" == field;
  }

  lemma SplitInThree(s: string, sep: char, a: string, b: string, c: string)
    requires InThree(s, sep, a, b, c)
    ensures Split(s, sep) == [a, b, c]
  {
    SplitAlone(c, sep);
    SplitFirstPiece(b, c, sep);
    SplitFirstPiece(a, b + [sep] + c, sep);
  }

  /** Three fields of a split are the text. */
  lemma ThreeFields(s: string, sep: char)
    requires |Split(s, sep)| == 3
    ensures InThree(s, sep, Split(s, sep)[0], Split(s, sep)[1], Split(s, sep)[2])
  {
    var f := Split(s, sep);
    JoinSplit(s, sep);
    assert f[1..][0] == f[1] && f[1..][1..] == [f[2]];
    assert Join(f[1..], [sep]) == f[1] + [sep] + f[2];
    assert f[0] in f && f[1] in f && f[2] in f;
  }

  /** An empty first field, then what was joined. */
  lemma JoinAfterSeparator(s: string, rest: seq<string>, tail: string, sep: char)
    requires s != "" && s[0] == sep && rest != [] && s[1..] == Join(rest, [sep]) + tail
    ensures s == Join([""] + rest, [sep]) + tail
  {
    JoinCons("", rest, [sep]);
    assert s == [sep] + s[1..];
    assert "" + [sep] + Join(rest, [sep]) + tail == [sep] + (Join(rest, [sep]) + tail);
  }

  /** A first field one character longer. */
  lemma JoinAfterCharacter(s: string, rest: seq<string>, tail: string, sep: char)
    requires s != "" && rest != [] && s[1..] == Join(rest, [sep]) + tail
    ensures s == Join([[s[0]] + rest[0]] + rest[1..], [sep]) + tail
  {
    JoinFirst([s[0]], rest, [sep]);
    Assoc([s[0]], Join(rest, [sep]), tail);
    assert s == [s[0]] + s[1..];
  }

  /** The bounded split is the head of the full split, and what it leaves out starts at a separator. */
  lemma {:induction false} SplitNPieces(s: string, sep: char, n: nat) returns (tail: string)
    requires n > 0
    requires |SplitN(s, sep, n + 1)| >= n
    ensures s == Join(SplitN(s, sep, n + 1)[..n], [sep]) + tail
    ensures tail == "" || tail[0] == sep
    decreases |s|
  {
    var all := SplitN(s, sep, n + 1);
    if s == "" {
      tail := "";
      assert all[..n] == [""];
    } else if s[0] == sep && n == 1 {
      tail := s;
      assert all[..n] == [""];
    } else if s[0] == sep {
      tail := SplitNPieces(s[1..], sep, n - 1);
      var rest := SplitN(s[1..], sep, n)[..n - 1];
      assert all[..n] == [""] + rest;
      JoinAfterSeparator(s, rest, tail, sep);
    } else {
      tail := SplitNPieces(s[1..], sep, n);
      var rest := SplitN(s[1..], sep, n + 1)[..n];
      assert all[..n] == [[s[0]] + rest[0]] + rest[1..];
      JoinAfterCharacter(s, rest, tail, sep);
    }
  }
}
