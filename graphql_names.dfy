/** Names in graphlayer/graphql/parser.py: the output key of a field
    selection, and the conversion of GraphQL's camelCase names to the
    snake_case names of graphlayer fields, parameters and input fields. */
module GraphQLNames {
  import opened Wrappers
  import opened GraphQLAst

  /** `_field_key`: the response key is the alias when one is given and
      the field name otherwise (section 2.7 of the GraphQL specification,
      October 2021). */
  function FieldKey(f: FieldNode): (k: string)
    ensures f.alias.Some? ==> k == f.alias.value
    ensures f.alias.None? ==> k == f.name
  {
    match f.alias
    case Some(alias) => alias
    case None => f.name
  }

  predicate IsUpper(c: char) { 'A' <= c <= 'Z' }

  predicate IsLower(c: char) { 'a' <= c <= 'z' }

  predicate IsDigit(c: char) { '0' <= c <= '9' }

  /** No character of `s` is an uppercase ASCII letter. */
  predicate NoUpper(s: string) {
    forall i :: 0 <= i < |s| ==> !IsUpper(s[i])
  }

  /** The end of the run of lowercase letters that starts at `j`. */
  function LowerRunEnd(s: string, j: nat): (k: nat)
    requires j <= |s|
    ensures j <= k <= |s|
    ensures forall i :: j <= i < k ==> IsLower(s[i])
    ensures k == |s| || !IsLower(s[k])
    decreases |s| - j
  {
    if j < |s| && IsLower(s[j]) then LowerRunEnd(s, j + 1) else j
  }

  /** `re.sub('(.)([A-Z][a-z]+)', r'\1_\2', s)`: scanning from the left, a
      character other than a newline followed by an uppercase letter and a
      (greedy) run of lowercase letters gets an underscore between the two;
      scanning resumes after the run. Each underscore needs a character an
      uppercase letter and a lowercase letter after it, so at most one is
      added for every three characters of the input. */
  function SplitWords(s: string): (r: string)
    ensures |s| <= |r| && 3 * (|r| - |s|) <= |s|
    ensures r == [] <==> s == []
    decreases |s|
  {
    if |s| >= 3 && s[0] != '\n' && IsUpper(s[1]) && IsLower(s[2]) then
      var k := LowerRunEnd(s, 3);
      [s[0], '_'] + s[1..k] + SplitWords(s[k..])
    else if s == [] then []
    else [s[0]] + SplitWords(s[1..])
  }

  /** `re.sub('([a-z0-9])([A-Z])', r'\1_\2', s)`: a lowercase letter or
      digit followed by an uppercase letter gets an underscore between the
      two; scanning resumes after the uppercase letter. At most one
      underscore is added for every two characters of the input. */
  function SplitBoundaries(s: string): (r: string)
    ensures |s| <= |r| && 2 * (|r| - |s|) <= |s|
    ensures r == [] <==> s == []
    decreases |s|
  {
    if |s| >= 2 && (IsLower(s[0]) || IsDigit(s[0])) && IsUpper(s[1]) then
      [s[0], '_', s[1]] + SplitBoundaries(s[2..])
    else if s == [] then []
    else [s[0]] + SplitBoundaries(s[1..])
  }

  function LowerChar(c: char): char {
    if IsUpper(c) then (c as int - 'A' as int + 'a' as int) as char else c
  }

  /** `s.lower()`, on ASCII letters. */
  function Lower(s: string): (r: string)
    ensures |r| == |s|
    ensures forall i :: 0 <= i < |s| ==> r[i] == LowerChar(s[i])
    ensures NoUpper(r)
  {
    seq(|s|, i requires 0 <= i < |s| => LowerChar(s[i]))
  }

  /** `_camel_case_to_snake_case`: the two substitutions, then lowercasing.
      The result never holds an uppercase letter. */
  function CamelToSnake(s: string): (r: string)
    ensures NoUpper(r)
  {
    Lower(SplitBoundaries(SplitWords(s)))
  }

  /** `s` with every underscore removed. */
  function Unscored(s: string): string {
    if s == [] then []
    else (if s[0] == '_' then [] else [s[0]]) + Unscored(s[1..])
  }

  lemma {:induction false} UnscoredAppend(a: string, b: string)
    ensures Unscored(a + b) == Unscored(a) + Unscored(b)
  {
    if a == [] {
      assert a + b == b;
    } else {
      assert (a + b)[1..] == a[1..] + b;
      UnscoredAppend(a[1..], b);
    }
  }

  lemma {:induction false} SplitWordsInsertsUnderscores(s: string)
    ensures Unscored(SplitWords(s)) == Unscored(s)
    decreases |s|
  {
    if |s| >= 3 && s[0] != '\n' && IsUpper(s[1]) && IsLower(s[2]) {
      var k := LowerRunEnd(s, 3);
      SplitWordsInsertsUnderscores(s[k..]);
      UnscoredAppend([s[0], '_'] + s[1..k], SplitWords(s[k..]));
      UnscoredAppend([s[0], '_'], s[1..k]);
      UnscoredAppend([s[0]], ['_']);
      assert s == [s[0]] + s[1..k] + s[k..];
      UnscoredAppend([s[0]] + s[1..k], s[k..]);
      UnscoredAppend([s[0]], s[1..k]);
    } else if s != [] {
      SplitWordsInsertsUnderscores(s[1..]);
      UnscoredAppend([s[0]], SplitWords(s[1..]));
      assert s == [s[0]] + s[1..];
      UnscoredAppend([s[0]], s[1..]);
    }
  }

  lemma {:induction false} SplitBoundariesInsertsUnderscores(s: string)
    ensures Unscored(SplitBoundaries(s)) == Unscored(s)
    decreases |s|
  {
    if |s| >= 2 && (IsLower(s[0]) || IsDigit(s[0])) && IsUpper(s[1]) {
      SplitBoundariesInsertsUnderscores(s[2..]);
      UnscoredAppend([s[0], '_', s[1]], SplitBoundaries(s[2..]));
      assert [s[0], '_', s[1]] == [s[0]] + ['_'] + [s[1]];
      UnscoredAppend([s[0]] + ['_'], [s[1]]);
      UnscoredAppend([s[0]], ['_']);
      assert s[..2] == [s[0]] + [s[1]];
      UnscoredAppend([s[0]], [s[1]]);
      assert s == s[..2] + s[2..];
      UnscoredAppend(s[..2], s[2..]);
    } else if s != [] {
      SplitBoundariesInsertsUnderscores(s[1..]);
      UnscoredAppend([s[0]], SplitBoundaries(s[1..]));
      assert s == [s[0]] + s[1..];
      UnscoredAppend([s[0]], s[1..]);
    }
  }

  lemma {:induction false} LowerUnscored(s: string)
    ensures Unscored(Lower(s)) == Lower(Unscored(s))
  {
    if s != [] {
      LowerUnscored(s[1..]);
      assert Lower(s) == [LowerChar(s[0])] + Lower(s[1..]);
      assert Lower((if s[0] == '_' then [] else [s[0]]) + Unscored(s[1..]))
          == Lower(if s[0] == '_' then [] else [s[0]]) + Lower(Unscored(s[1..]));
    }
  }

  /** The conversion only inserts underscores and lowercases: removing
      every underscore from its result gives the input, lowercased, with
      its own underscores removed. */
  lemma CamelToSnakeInsertsOnlyUnderscores(s: string)
    ensures Unscored(CamelToSnake(s)) == Lower(Unscored(s))
  {
    SplitWordsInsertsUnderscores(s);
    SplitBoundariesInsertsUnderscores(SplitWords(s));
    LowerUnscored(SplitBoundaries(SplitWords(s)));
  }

  lemma {:induction false} SplitWordsKeeps(s: string)
    requires NoUpper(s)
    ensures SplitWords(s) == s
    decreases |s|
  {
    if s != [] {
      if |s| >= 3 { assert !IsUpper(s[1]); }
      assert NoUpper(s[1..]) by {
        forall i | 0 <= i < |s[1..]| ensures !IsUpper(s[1..][i]) { assert s[1..][i] == s[i + 1]; }
      }
      SplitWordsKeeps(s[1..]);
    }
  }

  lemma {:induction false} SplitBoundariesKeeps(s: string)
    requires NoUpper(s)
    ensures SplitBoundaries(s) == s
    decreases |s|
  {
    if s != [] {
      if |s| >= 2 { assert !IsUpper(s[1]); }
      assert NoUpper(s[1..]) by {
        forall i | 0 <= i < |s[1..]| ensures !IsUpper(s[1..][i]) { assert s[1..][i] == s[i + 1]; }
      }
      SplitBoundariesKeeps(s[1..]);
    }
  }

  /** A name with no uppercase letter is its own snake_case form. */
  lemma CamelToSnakeKeepsLowercase(s: string)
    requires NoUpper(s)
    ensures CamelToSnake(s) == s
  {
    SplitWordsKeeps(s);
    SplitBoundariesKeeps(s);
    assert Lower(s) == s;
  }

  /** Converting twice is converting once. */
  lemma CamelToSnakeIdempotent(s: string)
    ensures CamelToSnake(CamelToSnake(s)) == CamelToSnake(s)
  {
    CamelToSnakeKeepsLowercase(CamelToSnake(s));
  }

  /** Where no lowercase letter or digit is followed by an uppercase
      letter, the second substitution changes nothing. */
  lemma {:induction false} SplitBoundariesNoBoundary(s: string)
    requires forall i :: 0 <= i < |s| - 1 ==> !((IsLower(s[i]) || IsDigit(s[i])) && IsUpper(s[i + 1]))
    ensures SplitBoundaries(s) == s
    decreases |s|
  {
    if s != [] {
      var t := s[1..];
      assert forall i :: 0 <= i < |t| ==> t[i] == s[i + 1];
      SplitBoundariesNoBoundary(t);
    }
  }

  /** A lowercase word followed by one capitalised word is split once,
      between the two. */
  lemma {:induction false} SplitWordsTwoWords(head: string, c: char, tail: string)
    requires |head| >= 1 && NoUpper(head) && head[|head| - 1] != '\n'
    requires IsUpper(c)
    requires |tail| >= 1 && forall i :: 0 <= i < |tail| ==> IsLower(tail[i])
    ensures SplitWords(head + [c] + tail) == head + ['_', c] + tail
    decreases |head|
  {
    var s := head + [c] + tail;
    if |head| == 1 {
      assert s[1] == c && s[2] == tail[0];
      assert LowerRunEnd(s, 3) == |s| by {
        LowerRunEndAll(s, 3);
      }
      assert s[1..] == [c] + tail;
      assert s[|s|..] == [];
    } else {
      assert s[1] == head[1];
      assert s[1..] == head[1..] + [c] + tail;
      assert NoUpper(head[1..]) by {
        forall i | 0 <= i < |head[1..]| ensures !IsUpper(head[1..][i]) { assert head[1..][i] == head[i + 1]; }
      }
      SplitWordsTwoWords(head[1..], c, tail);
      assert head == [head[0]] + head[1..];
    }
  }

  /** From `j` on, every character is a lowercase letter. */
  lemma {:induction false} LowerRunEndAll(s: string, j: nat)
    requires j <= |s|
    requires forall i :: j <= i < |s| ==> IsLower(s[i])
    ensures LowerRunEnd(s, j) == |s|
    decreases |s| - j
  {
    if j < |s| {
      LowerRunEndAll(s, j + 1);
    }
  }

  /** The second substitution finds nothing to split once the first has
      put an underscore before the only uppercase letter. */
  lemma SplitBoundariesTwoWords(head: string, c: char, tail: string)
    requires NoUpper(head)
    requires forall i :: 0 <= i < |tail| ==> IsLower(tail[i])
    ensures SplitBoundaries(head + ['_', c] + tail) == head + ['_', c] + tail
  {
    var split := head + ['_', c] + tail;
    forall i | 0 <= i < |split| - 1
      ensures !((IsLower(split[i]) || IsDigit(split[i])) && IsUpper(split[i + 1]))
    {
      if i + 1 < |head| {
        assert split[i + 1] == head[i + 1];
      } else if i + 1 == |head| {
        assert split[i + 1] == '_';
      } else if i + 1 == |head| + 1 {
        assert split[i] == '_';
      } else {
        assert split[i + 1] == tail[i + 1 - |head| - 2];
      }
    }
    SplitBoundariesNoBoundary(split);
  }

  lemma LowerTwoWords(head: string, c: char, tail: string)
    requires NoUpper(head)
    requires forall i :: 0 <= i < |tail| ==> IsLower(tail[i])
    ensures Lower(head + ['_', c] + tail) == head + ['_', LowerChar(c)] + tail
  {
    var split := head + ['_', c] + tail;
    var lowered := head + ['_', LowerChar(c)] + tail;
    forall i | 0 <= i < |split| ensures Lower(split)[i] == lowered[i] {
      if i < |head| {
        assert split[i] == head[i];
      } else if i >= |head| + 2 {
        assert split[i] == tail[i - |head| - 2];
      }
    }
  }

  /** A lowercase word followed by one capitalised word becomes the two
      words joined by an underscore, both in lowercase. */
  lemma CamelToSnakeTwoWords(head: string, c: char, tail: string)
    requires |head| >= 1 && NoUpper(head) && head[|head| - 1] != '\n'
    requires IsUpper(c)
    requires |tail| >= 1 && forall i :: 0 <= i < |tail| ==> IsLower(tail[i])
    ensures CamelToSnake(head + [c] + tail) == head + ['_', LowerChar(c)] + tail
  {
    SplitWordsTwoWords(head, c, tail);
    SplitBoundariesTwoWords(head, c, tail);
    LowerTwoWords(head, c, tail);
  }

  /** The field name of tests/graphql/test_parser.py:109-130. */
  lemma CamelToSnakeOneValue()
    ensures CamelToSnake("oneValue") == "one_value"
  {
    assert "oneValue" == "one" + ['V'] + "alue";
    CamelToSnakeTwoWords("one", 'V', "alue");
    assert "one" + ['_', LowerChar('V')] + "alue" == "one_value";
  }

  /** The parameter name of tests/graphql/test_parser.py:541-565. */
  lemma CamelToSnakeArgZero()
    ensures CamelToSnake("argZero") == "arg_zero"
  {
    assert "argZero" == "arg" + ['Z'] + "ero";
    CamelToSnakeTwoWords("arg", 'Z', "ero");
    assert "arg" + ['_', LowerChar('Z')] + "ero" == "arg_zero";
  }

  /** The input field name of tests/graphql/test_parser.py:595-600. */
  lemma CamelToSnakeFieldZero()
    ensures CamelToSnake("fieldZero") == "field_zero"
  {
    assert "fieldZero" == "field" + ['Z'] + "ero";
    CamelToSnakeTwoWords("field", 'Z', "ero");
    assert "field" + ['_', LowerChar('Z')] + "ero" == "field_zero";
  }
}
