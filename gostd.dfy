/**
 * The pieces of Go's standard library that the generator relies on, as
 * functions on strings: strings.Contains, strings.ReplaceAll, strings.Split,
 * the regular expression `[a-z]*\.` applied with ReplaceAllString, and the
 * run-time panics the generator can raise.
 */
module GoStd {

  /** A Go run-time panic raised while generating declarations. */
  datatype Panic =
    /** panic("No Translation for type: " + t), with t the type after '*' removal */
    | NoTranslation(typeName: string)
    /** values[1] read from a record that holds no comma */
    | IndexOutOfRange(record: string)

  predicate IsLower(c: char) { 'a' <= c <= 'z' }

  /**
   * A proof aid, not part of Go's library: appending strings is associative.
   * Stated once as a lemma so that loops and proofs that build strings piece
   * by piece (GenerateTsxType, QualifiedName) regroup them without the solver
   * searching for the regrouping itself.
   */
  lemma AppendAssoc(a: string, b: string, c: string)
    ensures a + b + c == a + (b + c)
  {
  }

  // ---------------------------------------------------------------------------
  // strings.Contains

  /** sub occurs in s starting at position i. */
  predicate OccursAt(s: string, sub: string, i: nat)
  {
    i + |sub| <= |s| && s[i..i + |sub|] == sub
  }

  /** strings.Contains(s, sub): sub occurs somewhere in s. */
  function Contains(s: string, sub: string): (b: bool)
    ensures b <==> exists i :: OccursAt(s, sub, i)
    decreases |s|
  {
    if |s| < |sub| then false
    else if s[..|sub|] == sub then assert OccursAt(s, sub, 0); true
    else
      var b' := Contains(s[1..], sub);
      assert forall i: nat :: OccursAt(s[1..], sub, i) <==> OccursAt(s, sub, i + 1) by {
        forall i: nat ensures OccursAt(s[1..], sub, i) <==> OccursAt(s, sub, i + 1) {
          if i + |sub| <= |s| - 1 {
            assert s[1..][i..i + |sub|] == s[i + 1..i + 1 + |sub|];
          }
        }
      }
      assert forall i: nat :: OccursAt(s, sub, i) ==> i > 0;
      assert forall i: nat :: OccursAt(s, sub, i) ==> OccursAt(s[1..], sub, i - 1);
      b'
  }

  lemma ContainsChar(s: string, c: char)
    ensures Contains(s, [c]) <==> c in s
  {
    if Contains(s, [c]) {
      var i: nat :| OccursAt(s, [c], i);
      assert s[i] == s[i..i + 1][0];
    }
    if c in s {
      var i :| 0 <= i < |s| && s[i] == c;
      assert s[i..i + 1] == [c];
      assert OccursAt(s, [c], i);
    }
  }

  /** A pattern whose first character is absent cannot occur. */
  lemma HeadAbsentNotContained(s: string, sub: string)
    requires sub != [] && sub[0] !in s
    ensures !Contains(s, sub)
  {
    forall i: nat ensures !OccursAt(s, sub, i) {
      if i + |sub| <= |s| {
        assert s[i..i + |sub|][0] == s[i];
      }
    }
  }

  // ---------------------------------------------------------------------------
  // strings.ReplaceAll

  /**
   * strings.ReplaceAll(s, pat, rep): every occurrence of pat, found leftmost
   * first and without overlap, is replaced by rep. Go also accepts an empty
   * pattern; the generator never passes one.
   */
  function ReplaceAll(s: string, pat: string, rep: string): string
    requires pat != []
    decreases |s|
  {
    if |s| < |pat| then s
    else if s[..|pat|] == pat then rep + ReplaceAll(s[|pat|..], pat, rep)
    else [s[0]] + ReplaceAll(s[1..], pat, rep)
  }

  /** Replacing a pattern whose first character is absent changes nothing. */
  lemma {:induction false} ReplaceAllAbsent(s: string, pat: string, rep: string)
    requires pat != [] && pat[0] !in s
    ensures ReplaceAll(s, pat, rep) == s
  {
    if |s| >= |pat| {
      assert s[..|pat|][0] == s[0];
      ReplaceAllAbsent(s[1..], pat, rep);
    }
  }

  /** s with every occurrence of c dropped, one character at a time. */
  function Without(s: string, c: char): string
  {
    if s == [] then [] else (if s[0] == c then [] else [s[0]]) + Without(s[1..], c)
  }

  /**
   * Removing every occurrence of a character is dropping exactly that
   * character: none is left behind, and every other character stays, in
   * order and in number.
   */
  lemma {:induction false} RemoveCharSpec(s: string, c: char)
    ensures ReplaceAll(s, [c], []) == Without(s, c)
    ensures c !in ReplaceAll(s, [c], [])
    ensures forall d :: d != c ==> (d in ReplaceAll(s, [c], []) <==> d in s)
    ensures forall d :: d != c ==> multiset(ReplaceAll(s, [c], []))[d] == multiset(s)[d]
  {
    if s != [] {
      RemoveCharSpec(s[1..], c);
      assert s == [s[0]] + s[1..];
      assert s[..1] == [s[0]];
    }
  }

  // ---------------------------------------------------------------------------
  // strings.Split and strings.Join for a one-character separator

  /** strings.Split(s, sep): the pieces of s between the separators (one piece when there is none). */
  function Split(s: string, sep: char): (r: seq<string>)
    ensures |r| >= 1
    ensures forall i :: 0 <= i < |r| ==> sep !in r[i]
  {
    if s == [] then [[]]
    else
      var rest := Split(s[1..], sep);
      if s[0] == sep then [[]] + rest
      else [[s[0]] + rest[0]] + rest[1..]
  }

  /** strings.Join(parts, sep). */
  function Join(parts: seq<string>, sep: char): string
  {
    if |parts| == 0 then []
    else if |parts| == 1 then parts[0]
    else parts[0] + [sep] + Join(parts[1..], sep)
  }

  /** Split and Join are inverse: joining the pieces restores the string. */
  lemma {:induction false} JoinSplit(s: string, sep: char)
    ensures Join(Split(s, sep), sep) == s
  {
    if s != [] {
      var rest := Split(s[1..], sep);
      JoinSplit(s[1..], sep);
      if s[0] == sep {
        assert Split(s, sep) == [[]] + rest;
      } else {
        var r := Split(s, sep);
        assert r[0] == [s[0]] + rest[0];
        if |rest| == 1 {
          assert r == [[s[0]] + rest[0]];
        } else {
          assert r[1..] == rest[1..];
          assert Join(r, sep) == [s[0]] + rest[0] + [sep] + Join(rest[1..], sep);
        }
      }
    }
  }

  /** A string without the separator is a single piece. */
  lemma {:induction false} SplitNoSep(a: string, sep: char)
    requires sep !in a
    ensures Split(a, sep) == [a]
  {
    if a != [] {
      SplitNoSep(a[1..], sep);
      assert a == [a[0]] + a[1..];
    }
  }

  /** The first piece of a + sep + b is a, when a holds no separator. */
  lemma {:induction false} SplitCons(a: string, b: string, sep: char)
    requires sep !in a
    ensures Split(a + [sep] + b, sep) == [a] + Split(b, sep)
  {
    if a == [] {
      assert (a + [sep] + b)[1..] == b;
    } else {
      assert (a + [sep] + b)[1..] == a[1..] + [sep] + b;
      SplitCons(a[1..], b, sep);
      assert a == [a[0]] + a[1..];
    }
  }

  /** Splitting a + sep + b gives back exactly a and b when neither holds the separator. */
  lemma SplitPair(a: string, b: string, sep: char)
    requires sep !in a && sep !in b
    ensures Split(a + [sep] + b, sep) == [a, b]
  {
    SplitCons(a, b, sep);
    SplitNoSep(b, sep);
  }

  // ---------------------------------------------------------------------------
  // regexp.MustCompile(`[a-z]*\.`).ReplaceAllString(s, "")

  /** The length of the longest prefix of s made of lower-case letters. */
  function LowerRun(s: string): (n: nat)
    ensures n <= |s|
  {
    if s != [] && IsLower(s[0]) then 1 + LowerRun(s[1..]) else 0
  }

  /** The run is made of lower-case letters and is maximal. */
  lemma {:induction false} LowerRunSpec(s: string)
    ensures forall i :: 0 <= i < LowerRun(s) ==> IsLower(s[i])
    ensures LowerRun(s) < |s| ==> !IsLower(s[LowerRun(s)])
  {
    if s != [] && IsLower(s[0]) {
      LowerRunSpec(s[1..]);
    }
  }

  /** A string made only of lower-case letters is one whole run. */
  lemma {:induction false} LowerRunAll(s: string)
    requires forall c :: c in s ==> IsLower(c)
    ensures LowerRun(s) == |s|
  {
    if s != [] {
      assert s[0] in s;
      assert forall c :: c in s[1..] ==> c in s;
      LowerRunAll(s[1..]);
    }
  }

  /**
   * Deletes every match of `[a-z]*\.`, scanning from the left like Go's
   * ReplaceAllString. A match starts at some position exactly when the run of
   * lower-case letters from there ends at a dot; when it does not, the run
   * (or the single non-letter) is copied and the scan moves past it.
   */
  function DeleteQualifiers(s: string): string
    decreases |s|
  {
    if s == [] then []
    else
      var k := LowerRun(s);
      if k < |s| && s[k] == '.' then DeleteQualifiers(s[k + 1..])
      else if k == 0 then [s[0]] + DeleteQualifiers(s[1..])
      else s[..k] + DeleteQualifiers(s[k..])
  }

  /**
   * Reference reading of the same rule, one character at a time: the first
   * character of s is deleted when it is a dot or a lower-case letter whose
   * run of lower-case letters ends at a dot.
   */
  predicate HeadDeleted(s: string)
    requires s != []
  {
    (s[0] == '.' || IsLower(s[0])) && LowerRun(s) < |s| && s[LowerRun(s)] == '.'
  }

  function KeptChars(s: string): string
  {
    if s == [] then [] else (if HeadDeleted(s) then [] else [s[0]]) + KeptChars(s[1..])
  }

  lemma {:induction false} LowerRunSuffix(s: string, j: nat)
    requires j <= LowerRun(s)
    ensures LowerRun(s[j..]) == LowerRun(s) - j
  {
    if j > 0 {
      assert s[j..] == s[1..][j - 1..];
      LowerRunSuffix(s[1..], j - 1);
    }
  }

  lemma {:induction false} LowerRunAppend(a: string, b: string)
    ensures LowerRun(a + b) == if LowerRun(a) < |a| then LowerRun(a) else |a| + LowerRun(b)
  {
    if a != [] {
      assert (a + b)[0] == a[0];
      assert (a + b)[1..] == a[1..] + b;
      LowerRunAppend(a[1..], b);
    } else {
      assert a + b == b;
    }
  }

  /** Inside a run of lower-case letters ending at a dot, everything up to the dot is deleted. */
  lemma {:induction false} KeptCharsDropRun(s: string, j: nat, k: nat)
    requires j <= k == LowerRun(s) < |s| && s[k] == '.'
    ensures KeptChars(s[j..]) == KeptChars(s[k + 1..])
    decreases k - j
  {
    LowerRunSuffix(s, j);
    assert s[j..][1..] == s[j + 1..];
    if j < k {
      KeptCharsDropRun(s, j + 1, k);
    }
  }

  /** Inside a run of lower-case letters that does not end at a dot, everything is kept. */
  lemma {:induction false} KeptCharsKeepRun(s: string, j: nat, k: nat)
    requires j <= k == LowerRun(s) && (k == |s| || s[k] != '.')
    ensures KeptChars(s[j..]) == s[j..k] + KeptChars(s[k..])
    decreases k - j
  {
    if j < k {
      LowerRunSuffix(s, j);
      assert s[j..][1..] == s[j + 1..];
      KeptCharsKeepRun(s, j + 1, k);
      assert s[j..k] == [s[j]] + s[j + 1..k];
    }
  }

  /** The left-to-right scan deletes exactly the characters the per-character rule deletes. */
  lemma {:induction false} DeleteQualifiersIsKeptChars(s: string)
    ensures DeleteQualifiers(s) == KeptChars(s)
    decreases |s|
  {
    if s != [] {
      var k := LowerRun(s);
      if k < |s| && s[k] == '.' {
        DeleteQualifiersIsKeptChars(s[k + 1..]);
        KeptCharsDropRun(s, 0, k);
      } else if k == 0 {
        DeleteQualifiersIsKeptChars(s[1..]);
      } else {
        DeleteQualifiersIsKeptChars(s[k..]);
        KeptCharsKeepRun(s, 0, k);
      }
    }
  }

  /** No dot survives the deletion. */
  lemma {:induction false} DeleteQualifiersNoDot(s: string)
    ensures '.' !in DeleteQualifiers(s)
    decreases |s|
  {
    if s != [] {
      var k := LowerRun(s);
      if k < |s| && s[k] == '.' {
        DeleteQualifiersNoDot(s[k + 1..]);
      } else if k == 0 {
        DeleteQualifiersNoDot(s[1..]);
      } else {
        LowerRunSpec(s);
        DeleteQualifiersNoDot(s[k..]);
      }
    }
  }

  /** A string without a dot is left unchanged. */
  lemma {:induction false} DeleteQualifiersNoMatch(s: string)
    requires '.' !in s
    ensures DeleteQualifiers(s) == s
    decreases |s|
  {
    if s != [] {
      var k := LowerRun(s);
      if k == 0 {
        DeleteQualifiersNoMatch(s[1..]);
      } else {
        DeleteQualifiersNoMatch(s[k..]);
      }
    }
  }

  /** Two steps of the scan: a qualifier ending at a dot is dropped, any other character is copied. */
  lemma DeleteQualifiersAtDot(s: string)
    requires LowerRun(s) < |s| && s[LowerRun(s)] == '.'
    ensures DeleteQualifiers(s) == DeleteQualifiers(s[LowerRun(s) + 1..])
  {
  }

  lemma DeleteQualifiersAtOther(s: string)
    requires s != [] && LowerRun(s) == 0 && s[0] != '.'
    ensures DeleteQualifiers(s) == [s[0]] + DeleteQualifiers(s[1..])
  {
  }

  /** A leading character that is neither a lower-case letter nor a dot is copied. */
  lemma DeleteQualifiersCons(c: char, s: string)
    requires !IsLower(c) && c != '.'
    ensures DeleteQualifiers([c] + s) == [c] + DeleteQualifiers(s)
  {
    var t := [c] + s;
    assert t[0] == c && t[1..] == s;
    assert LowerRun(t) == 0;
    DeleteQualifiersAtOther(t);
  }

  /** A lower-case qualifier together with its dot is deleted. */
  lemma DeleteQualifiersQualifier(pkg: string, s: string)
    requires forall c :: c in pkg ==> IsLower(c)
    ensures DeleteQualifiers(pkg + "." + s) == DeleteQualifiers(s)
  {
    var t := pkg + "." + s;
    assert t == pkg + ("." + s);
    LowerRunAppend(pkg, "." + s);
    LowerRunAll(pkg);
    assert LowerRun("." + s) == 0;
    assert LowerRun(t) == |pkg| && t[|pkg|] == '.';
    DeleteQualifiersAtDot(t);
    assert t[|pkg| + 1..] == s;
  }
}
