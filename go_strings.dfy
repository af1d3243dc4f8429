/**
 * The three functions of Go's `strings` package that the container scanner
 * uses to read a label filter: `Split` around a one-character separator,
 * `TrimSpace`, and `FieldsFunc`. Strings are sequences of Unicode scalar
 * values; invalid UTF-8 is not modelled.
 */
module GoStrings {

  /** `unicode.IsSpace`: the Latin-1 spaces and the other White_Space code points. */
  predicate IsSpace(c: char)
  {
    || c == ' ' || c == '\t' || c == '\n' || c == '\r'
    || c == '\U{0B}' || c == '\U{0C}' || c == '\U{85}' || c == '\U{A0}'
    || c == '\U{1680}' || ('\U{2000}' <= c <= '\U{200A}')
    || c == '\U{2028}' || c == '\U{2029}' || c == '\U{202F}' || c == '\U{205F}' || c == '\U{3000}'
  }

  // ---------------------------------------------------------------------------
  // strings.Split with a one-character separator, and its inverse strings.Join

  /** `strings.Split(s, string(sep))`: the n+1 pieces between the n occurrences of `sep`. */
  function Split(s: string, sep: char): (r: seq<string>)
    ensures |r| >= 1
    ensures forall k | 0 <= k < |r| :: sep !in r[k]
  {
    if s == [] then [[]]
    else
      var rest := Split(s[1..], sep);
      if s[0] == sep then [[]] + rest
      else [[s[0]] + rest[0]] + rest[1..]
  }

  /** `strings.Join(parts, string(sep))`. */
  function Join(parts: seq<string>, sep: char): string
  {
    if parts == [] then []
    else if |parts| == 1 then parts[0]
    else parts[0] + [sep] + Join(parts[1..], sep)
  }

  /** A join starts with its first piece. */
  lemma JoinStartsWith(parts: seq<string>, sep: char)
    requires |parts| >= 1
    ensures |Join(parts, sep)| >= |parts[0]| && Join(parts, sep)[..|parts[0]|] == parts[0]
  {
  }

  /** Joining the pieces of a split gives the original string back. */
  lemma {:induction false} JoinSplit(s: string, sep: char)
    ensures Join(Split(s, sep), sep) == s
  {
    if s != [] {
      var rest := Split(s[1..], sep);
      JoinSplit(s[1..], sep);
      if s[0] == sep {
        assert Split(s, sep) == [[]] + rest;
        assert Join([[]] + rest, sep) == [] + [sep] + Join(rest, sep);
      } else {
        var r := Split(s, sep);
        assert r == [[s[0]] + rest[0]] + rest[1..];
        if |rest| == 1 {
          assert Join(r, sep) == [s[0]] + rest[0];
        } else {
          assert r[1..] == rest[1..];
          assert Join(r, sep) == [s[0]] + rest[0] + [sep] + Join(rest[1..], sep);
          assert Join(rest, sep) == rest[0] + [sep] + Join(rest[1..], sep);
        }
      }
    }
  }

  /** Splitting a join of separator-free pieces gives the pieces back. */
  lemma {:induction false} SplitJoin(parts: seq<string>, sep: char)
    requires |parts| >= 1
    requires forall k | 0 <= k < |parts| :: sep !in parts[k]
    ensures Split(Join(parts, sep), sep) == parts
    decreases |parts|, |parts[0]|
  {
    var p := parts[0];
    if p == [] {
      if |parts| > 1 {
        SplitJoin(parts[1..], sep);
        assert Join(parts, sep) == [sep] + Join(parts[1..], sep);
        assert parts == [[]] + parts[1..];
      }
    } else {
      var shorter := [p[1..]] + parts[1..];
      assert forall k | 0 <= k < |shorter| :: sep !in shorter[k] by {
        forall k | 0 <= k < |shorter| ensures sep !in shorter[k] {
          if k > 0 { assert shorter[k] == parts[k]; }
        }
      }
      SplitJoin(shorter, sep);
      assert p[0] in p;
      if |parts| == 1 {
        assert Join(parts, sep) == [p[0]] + Join(shorter, sep);
      } else {
        assert shorter[1..] == parts[1..];
        assert Join(parts, sep) == [p[0]] + Join(shorter, sep);
      }
      assert Join(parts, sep)[1..] == Join(shorter, sep);
      assert [p[0]] + shorter[0] == p;
      assert shorter[1..] == parts[1..];
      assert parts == [p] + parts[1..];
    }
  }

  // ---------------------------------------------------------------------------
  // strings.TrimSpace

  /** The index of the first non-space of `s` at or after `i`, or `|s|`. */
  function SkipSpaces(s: string, i: nat): (n: nat)
    requires i <= |s|
    ensures i <= n <= |s|
    ensures forall k | i <= k < n :: IsSpace(s[k])
    ensures n == |s| || !IsSpace(s[n])
    decreases |s| - i
  {
    if i == |s| || !IsSpace(s[i]) then i else SkipSpaces(s, i + 1)
  }

  /** The end of `s[lo..j]` once its trailing spaces are dropped. */
  function SkipTrailingSpaces(s: string, lo: nat, j: nat): (n: nat)
    requires lo <= j <= |s|
    ensures lo <= n <= j
    ensures forall k | n <= k < j :: IsSpace(s[k])
    ensures n == lo || !IsSpace(s[n - 1])
  {
    if j == lo || !IsSpace(s[j - 1]) then j else SkipTrailingSpaces(s, lo, j - 1)
  }

  /** `strings.TrimSpace`: the slice between the leading and the trailing spaces. */
  function TrimSpace(s: string): (r: string)
    ensures |r| <= |s|
    ensures r == [] || (!IsSpace(r[0]) && !IsSpace(r[|r| - 1]))
  {
    var i := SkipSpaces(s, 0);
    var j := SkipTrailingSpaces(s, i, |s|);
    assert i < j ==> s[i..j][0] == s[i] && s[i..j][j - i - 1] == s[j - 1];
    s[i..j]
  }

  /** TrimSpace removes exactly the spaces at both ends: the result is the
      slice `s[i..j]`, outside of which there are only spaces, and it neither
      starts nor ends with a space. */
  lemma TrimSpaceIsSlice(s: string)
    ensures exists i, j | 0 <= i <= j <= |s| ::
      && TrimSpace(s) == s[i..j]
      && (forall k | 0 <= k < i :: IsSpace(s[k]))
      && (forall k | j <= k < |s| :: IsSpace(s[k]))
    ensures TrimSpace(s) == [] || (!IsSpace(TrimSpace(s)[0]) && !IsSpace(TrimSpace(s)[|TrimSpace(s)| - 1]))
  {
    var i := SkipSpaces(s, 0);
    var j := SkipTrailingSpaces(s, i, |s|);
    var r := TrimSpace(s);
    assert r == s[i..j];
    forall k | j <= k < |s| ensures IsSpace(s[k]) {
      assert i <= k;
    }
    if r != [] {
      assert r[0] == s[i] && r[|r| - 1] == s[j - 1];
    }
  }

  /** A string with no space at either end is its own trim. */
  lemma TrimSpaceOfTrimmed(s: string)
    requires s == [] || (!IsSpace(s[0]) && !IsSpace(s[|s| - 1]))
    ensures TrimSpace(s) == s
  {
  }

  /** A space before a trimmed word is trimmed away. */
  lemma TrimLeadingSpace(c: char, w: string)
    requires IsSpace(c) && w != [] && !IsSpace(w[0]) && !IsSpace(w[|w| - 1])
    ensures TrimSpace([c] + w) == w
  {
    var s := [c] + w;
    assert SkipSpaces(s, 1) == 1;
    assert SkipSpaces(s, 0) == 1;
    assert SkipTrailingSpaces(s, 1, |s|) == |s|;
    assert s[1..] == w;
  }

  /** TrimSpace is idempotent: a trimmed string has nothing left to trim. */
  lemma TrimSpaceIsIdempotent(s: string)
    ensures TrimSpace(TrimSpace(s)) == TrimSpace(s)
  {
    TrimSpaceIsSlice(s);
    TrimSpaceOfTrimmed(TrimSpace(s));
  }

  // ---------------------------------------------------------------------------
  // strings.FieldsFunc

  /** The longest prefix of `s` that holds no separator. */
  function LeadingField(s: string, isSep: char -> bool): (w: string)
    ensures |w| <= |s| && w == s[..|w|]
    ensures forall k | 0 <= k < |w| :: !isSep(w[k])
    ensures |w| == |s| || isSep(s[|w|])
  {
    if s == [] || isSep(s[0]) then [] else [s[0]] + LeadingField(s[1..], isSep)
  }

  /** `strings.FieldsFunc(s, isSep)`: the maximal runs of non-separators, so that
      every field is non-empty and holds no separator. */
  function FieldsFunc(s: string, isSep: char -> bool): (r: seq<string>)
    ensures forall k | 0 <= k < |r| :: r[k] != [] && forall m | 0 <= m < |r[k]| :: !isSep(r[k][m])
    decreases |s|
  {
    if s == [] then []
    else if isSep(s[0]) then FieldsFunc(s[1..], isSep)
    else
      var w := LeadingField(s, isSep);
      [w] + FieldsFunc(s[|w|..], isSep)
  }

  /** The pieces of `s` between its separator characters, empty pieces included: the
      generalisation of `Split` to a set of separators. */
  function SplitFunc(s: string, isSep: char -> bool): (r: seq<string>)
    ensures |r| >= 1
  {
    if s == [] then [[]]
    else
      var rest := SplitFunc(s[1..], isSep);
      if isSep(s[0]) then [[]] + rest
      else [[s[0]] + rest[0]] + rest[1..]
  }

  /** With a single separator character, `SplitFunc` is `strings.Split`. */
  lemma {:induction false} SplitFuncIsSplit(s: string, sep: char, isSep: char -> bool)
    requires forall c :: isSep(c) <==> c == sep
    ensures SplitFunc(s, isSep) == Split(s, sep)
  {
    if s != [] {
      SplitFuncIsSplit(s[1..], sep, isSep);
    }
  }

  /** The non-empty strings of `parts`, in order. */
  function NonEmpty(parts: seq<string>): seq<string>
  {
    if parts == [] then []
    else (if parts[0] == [] then [] else [parts[0]]) + NonEmpty(parts[1..])
  }

  /** Splitting a separator-free word followed by a separator (or by nothing): the word is
      the first piece, and the other pieces are those of what follows the separator. */
  lemma {:induction false} SplitFuncAfterWord(w: string, t: string, isSep: char -> bool)
    requires forall k | 0 <= k < |w| :: !isSep(w[k])
    requires t == [] || isSep(t[0])
    ensures SplitFunc(w + t, isSep) == [w] + (if t == [] then [] else SplitFunc(t[1..], isSep))
  {
    if w == [] {
      assert w + t == t;
    } else {
      SplitFuncAfterWord(w[1..], t, isSep);
      var s := w + t;
      assert s[0] == w[0] && s[1..] == w[1..] + t;
      assert [w[0]] + w[1..] == w;
    }
  }

  /** `FieldsFunc` returns exactly the non-empty pieces between the separators, in order:
      runs of separators, and separators at either end, give no empty field. */
  lemma {:induction false} FieldsAreNonEmptyPieces(s: string, isSep: char -> bool)
    ensures FieldsFunc(s, isSep) == NonEmpty(SplitFunc(s, isSep))
    decreases |s|
  {
    if s == [] {
    } else if isSep(s[0]) {
      FieldsAreNonEmptyPieces(s[1..], isSep);
      assert SplitFunc(s, isSep) == [[]] + SplitFunc(s[1..], isSep);
      assert ([[]] + SplitFunc(s[1..], isSep))[1..] == SplitFunc(s[1..], isSep);
    } else {
      var w := LeadingField(s, isSep);
      var t := s[|w|..];
      assert s == w + t;
      SplitFuncAfterWord(w, t, isSep);
      if t == [] {
        assert NonEmpty([w]) == [w] + NonEmpty([]);
      } else {
        var after := t[1..];
        FieldsAreNonEmptyPieces(after, isSep);
        assert FieldsFunc(t, isSep) == FieldsFunc(after, isSep);
        assert ([w] + SplitFunc(after, isSep))[1..] == SplitFunc(after, isSep);
      }
    }
  }

  /** A non-empty run of non-separators is a single field. */
  lemma FieldsOfOneWord(w: string, isSep: char -> bool)
    requires w != []
    requires forall k | 0 <= k < |w| :: !isSep(w[k])
    ensures FieldsFunc(w, isSep) == [w]
  {
    LeadingFieldOfWord(w, [], isSep);
    assert w + [] == w;
  }

  /** Two runs of non-separators around one separator are two fields. */
  lemma FieldsOfTwoWords(a: string, c: char, b: string, isSep: char -> bool)
    requires a != [] && b != [] && isSep(c)
    requires forall k | 0 <= k < |a| :: !isSep(a[k])
    requires forall k | 0 <= k < |b| :: !isSep(b[k])
    ensures FieldsFunc(a + [c] + b, isSep) == [a, b]
  {
    var s := a + [c] + b;
    LeadingFieldOfWord(a, [c] + b, isSep);
    assert s == a + ([c] + b);
    assert s[|a|..] == [c] + b;
    assert ([c] + b)[1..] == b;
    FieldsOfOneWord(b, isSep);
  }

  /** A field ends at the first separator: a non-empty word followed by a separator (or by
      nothing) is the first field, and the fields of the rest follow it. */
  lemma FieldsAfterWord(w: string, t: string, isSep: char -> bool)
    requires w != [] && forall k | 0 <= k < |w| :: !isSep(w[k])
    requires t == [] || isSep(t[0])
    ensures FieldsFunc(w + t, isSep) == [w] + FieldsFunc(t, isSep)
  {
    LeadingFieldOfWord(w, t, isSep);
    assert (w + t)[0] == w[0];
    assert (w + t)[|w|..] == t;
  }

  /** Separators before a string add no field. */
  lemma {:induction false} FieldsAfterSeparators(run: string, t: string, isSep: char -> bool)
    requires forall k | 0 <= k < |run| :: isSep(run[k])
    ensures FieldsFunc(run + t, isSep) == FieldsFunc(t, isSep)
  {
    if run != [] {
      var s := run + t;
      assert s[0] == run[0] && s[1..] == run[1..] + t;
      assert FieldsFunc(s, isSep) == FieldsFunc(s[1..], isSep);
      FieldsAfterSeparators(run[1..], t, isSep);
    } else {
      assert run + t == t;
    }
  }

  /** Two words around a run of separators are two fields, however long the run. */
  lemma FieldsOfSeparatedWords(a: string, run: string, b: string, isSep: char -> bool)
    requires a != [] && b != [] && run != []
    requires forall k | 0 <= k < |a| :: !isSep(a[k])
    requires forall k | 0 <= k < |b| :: !isSep(b[k])
    requires forall k | 0 <= k < |run| :: isSep(run[k])
    ensures FieldsFunc(a + run + b, isSep) == [a, b]
  {
    assert a + run + b == a + (run + b);
    FieldsAfterWord(a, run + b, isSep);
    FieldsAfterSeparators(run, b, isSep);
    FieldsOfOneWord(b, isSep);
  }

  /** Three words around two separators are three fields. */
  lemma FieldsOfThreeWords(a: string, c1: char, b: string, c2: char, d: string, isSep: char -> bool)
    requires a != [] && b != [] && d != [] && isSep(c1) && isSep(c2)
    requires forall k | 0 <= k < |a| :: !isSep(a[k])
    requires forall k | 0 <= k < |b| :: !isSep(b[k])
    requires forall k | 0 <= k < |d| :: !isSep(d[k])
    ensures FieldsFunc(a + [c1] + b + [c2] + d, isSep) == [a, b, d]
  {
    var tail := b + [c2] + d;
    var rest := [c1] + tail;
    RegroupAfterFirst(a, c1, b, c2, d);
    FieldsAfterWord(a, rest, isSep);
    FieldsAfterSeparators([c1], tail, isSep);
    FieldsOfTwoWords(b, c2, d, isSep);
    assert FieldsFunc(a + rest, isSep) == [a] + [b, d];
  }

  /** Three words and two separators, read as the first word followed by the rest. */
  lemma RegroupAfterFirst(a: string, c1: char, b: string, c2: char, d: string)
    ensures a + [c1] + b + [c2] + d == a + ([c1] + (b + [c2] + d))
  {
    assert a + [c1] + b + [c2] + d == (a + [c1]) + (b + [c2] + d);
  }

  /** The leading field of `w + t` is `w` when `w` holds no separator and `t`
      is empty or starts with one. */
  lemma {:induction false} LeadingFieldOfWord(w: string, t: string, isSep: char -> bool)
    requires forall k | 0 <= k < |w| :: !isSep(w[k])
    requires t == [] || isSep(t[0])
    ensures LeadingField(w + t, isSep) == w
  {
    if w != [] {
      assert (w + t)[1..] == w[1..] + t;
      LeadingFieldOfWord(w[1..], t, isSep);
    } else {
      assert w + t == t;
    }
  }
}
