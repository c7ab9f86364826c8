/**
 * What the case conversions of module Casing guarantee: the shape of each
 * result for well-formed identifiers, the characters a result can contain, and
 * the effect of the backtracking step of toPascalCase on one-letter words.
 */
module CaseProperties {
  import opened Casing

  // ---------------------------------------------------------------------------
  // Facts about the individual steps

  lemma {:induction false} MarkCapitalsLength(s: string, mark: char)
    ensures |MarkCapitals(s, mark)| == |s| + CountUpper(s)
  {
    if s != [] {
      MarkCapitalsLength(s[1..], mark);
    }
  }

  lemma {:induction false} MarkCapitalsLast(s: string, mark: char)
    requires s != []
    ensures MarkCapitals(s, mark) != []
    ensures MarkCapitals(s, mark)[|MarkCapitals(s, mark)| - 1] == s[|s| - 1]
  {
    if |s| > 1 {
      MarkCapitalsLast(s[1..], mark);
    }
  }

  /** Every capital in the result is preceded by `mark`. */
  lemma {:induction false} MarkCapitalsSpaced(s: string, mark: char)
    requires !IsUpper(mark)
    ensures forall i :: 0 <= i < |MarkCapitals(s, mark)| && IsUpper(MarkCapitals(s, mark)[i]) ==>
              0 < i && MarkCapitals(s, mark)[i - 1] == mark
  {
    if s != [] {
      MarkCapitalsSpaced(s[1..], mark);
      var head := if IsUpper(s[0]) then [mark, s[0]] else [s[0]];
      var tail := MarkCapitals(s[1..], mark);
      var r := MarkCapitals(s, mark);
      assert r == head + tail;
      forall i | 0 <= i < |r| && IsUpper(r[i])
        ensures 0 < i && r[i - 1] == mark
      {
        if i >= |head| {
          assert r[i] == tail[i - |head|];
          if i - |head| > 0 {
            assert r[i - 1] == tail[i - |head| - 1];
          }
        }
      }
    }
  }

  lemma LowerAllConcat(a: string, b: string)
    ensures LowerAll(a + b) == LowerAll(a) + LowerAll(b)
  {
    assert forall i :: 0 <= i < |a + b| ==> LowerAll(a + b)[i] == (LowerAll(a) + LowerAll(b))[i];
  }

  lemma {:induction false} DeleteSpacesSub(s: string)
    ensures forall c :: c in DeleteSpaces(s) ==> c in s && !IsSpace(c)
  {
    if s != [] {
      DeleteSpacesSub(s[1..]);
    }
  }

  lemma {:induction false} DeleteSpacesNone(s: string)
    requires NoSpace(s)
    ensures DeleteSpaces(s) == s
  {
    if s != [] {
      assert s[0] in s;
      DeleteSpacesNone(s[1..]);
    }
  }

  lemma {:induction false} DeleteCharSub(s: string, x: char)
    ensures forall c :: c in DeleteChar(s, x) ==> c in s && c != x
  {
    if s != [] {
      DeleteCharSub(s[1..], x);
    }
  }

  lemma {:induction false} DeleteCharNone(s: string, x: char)
    requires x !in s
    ensures DeleteChar(s, x) == s
  {
    if s != [] {
      DeleteCharNone(s[1..], x);
    }
  }

  lemma {:induction false} RunLengthAll(s: string, k: CharClass)
    requires forall c :: c in s ==> InClass(c, k)
    ensures RunLength(s, k) == |s|
  {
    if s != [] {
      assert s[0] in s;
      RunLengthAll(s[1..], k);
    }
  }

  lemma {:induction false} CollapseDashesSub(s: string)
    ensures forall c :: c in CollapseDashes(s) ==> !InClass(c, Dash) && (c == ' ' || c in s)
    decreases |s|
  {
    if s != [] {
      if InClass(s[0], Dash) {
        CollapseDashesSub(s[RunLength(s, Dash)..]);
      } else {
        CollapseDashesSub(s[1..]);
      }
    }
  }

  lemma {:induction false} CollapseDashesNone(s: string)
    requires forall c :: c in s ==> !InClass(c, Dash)
    ensures CollapseDashes(s) == s
  {
    if s != [] {
      assert s[0] in s;
      CollapseDashesNone(s[1..]);
    }
  }

  lemma {:induction false} CollapseDashesPrefix(a: string, t: string)
    requires forall c :: c in a ==> !InClass(c, Dash)
    ensures CollapseDashes(a + t) == a + CollapseDashes(t)
  {
    if a != [] {
      assert a[0] in a;
      assert (a + t)[1..] == a[1..] + t;
      CollapseDashesPrefix(a[1..], t);
    } else {
      assert a + t == t;
    }
  }

  lemma {:induction false} DropPunctuationSub(s: string)
    ensures forall c :: c in DropPunctuation(s) ==> c in s && (IsWord(c) || IsSpace(c))
  {
    if s != [] {
      DropPunctuationSub(s[1..]);
    }
  }

  lemma {:induction false} DropPunctuationNone(s: string)
    requires forall c :: c in s ==> IsWord(c) || IsSpace(c)
    ensures DropPunctuation(s) == s
  {
    if s != [] {
      assert s[0] in s;
      DropPunctuationNone(s[1..]);
    }
  }

  lemma SliceIn(s: string, i: nat, j: nat)
    requires i <= j <= |s|
    ensures forall c :: c in s[i..j] ==> c in s
  {
    forall c | c in s[i..j]
      ensures c in s
    {
      var k :| 0 <= k < j - i && s[i..j][k] == c;
      assert s[i + k] == c;
    }
  }

  lemma LowerAllClass(t: string)
    requires AlnumOrSpace(t)
    ensures AlnumOrSpace(LowerAll(t))
  {
    forall c | c in LowerAll(t)
      ensures IsAlnum(c) || IsSpace(c)
    {
      var k :| 0 <= k < |t| && LowerAll(t)[k] == c;
      assert t[k] in t;
    }
  }

  /** One matched word of step 3, `[ToUpper(c)] + LowerAll(w)`, keeps letters, digits and spaces. */
  lemma MatchedWordClass(c: char, w: string, s: string)
    requires c in s && AlnumOrSpace(s) && AlnumOrSpace(w)
    ensures AlnumOrSpace([ToUpper(c)] + LowerAll(w))
  {
    LowerAllClass(w);
  }

  lemma {:induction false} CapitalizeWordsClass(s: string)
    requires AlnumOrSpace(s)
    ensures AlnumOrSpace(CapitalizeWords(s))
    decreases |s|
  {
    if s == [] {
    } else if !IsSpace(s[0]) {
      assert s[0] in s;
      SliceIn(s, 1, |s|);
      CapitalizeWordsClass(s[1..]);
    } else {
      var r := RunLength(s, Space);
      var rest := s[r..];
      SliceIn(s, r, |s|);
      assert AlnumOrSpace(rest);
      if |rest| >= 2 && IsDot(rest[0]) && IsWord(rest[1]) {
        var m := 1 + RunLength(rest[1..], Word);
        assert rest[0] in rest;
        SliceIn(rest, 1, m);
        SliceIn(rest, m, |rest|);
        CapitalizeWordsClass(rest[m..]);
        MatchedWordClass(rest[0], rest[1..m], rest);
      } else if r >= 2 && IsDot(s[r - 1]) && rest != [] && IsWord(rest[0]) {
        var m := RunLength(rest, Word);
        assert s[r - 1] in s;
        SliceIn(rest, 0, m);
        SliceIn(rest, m, |rest|);
        assert rest[..m] == rest[0..m];
        CapitalizeWordsClass(rest[m..]);
        MatchedWordClass(s[r - 1], rest[..m], s);
      } else {
        SliceIn(s, 0, r);
        assert s[..r] == s[0..r];
        CapitalizeWordsClass(rest);
      }
    }
  }

  lemma {:induction false} CapitalizeWordsNone(s: string)
    requires NoSpace(s)
    ensures CapitalizeWords(s) == s
  {
    if s != [] {
      assert s[0] in s;
      CapitalizeWordsNone(s[1..]);
    }
  }

  lemma {:induction false} CapitalizeWordsPrefix(a: string, t: string)
    requires NoSpace(a)
    ensures CapitalizeWords(a + t) == a + CapitalizeWords(t)
  {
    if a != [] {
      var s := a + t;
      assert a[0] in a;
      assert s[0] == a[0] && s[1..] == a[1..] + t;
      SliceIn(a, 1, |a|);
      CapitalizeWordsPrefix(a[1..], t);
      assert CapitalizeWords(s) == [a[0]] + CapitalizeWords(a[1..] + t);
      assert a == [a[0]] + a[1..];
    } else {
      assert a + t == t;
    }
  }

  lemma UpperFirstWordAlnum(s: string)
    requires AllAlnum(s)
    ensures AllAlnum(UpperFirstWord(s))
  {
    if s != [] {
      assert s[0] in s;
      SliceIn(s, 1, |s|);
    }
  }

  // ---------------------------------------------------------------------------
  // toTextSpace

  /**
   * For an identifier without surrounding white space, toTextSpace raises its
   * first character and puts a space before every later capital; the space the
   * first replacement puts before a leading capital is trimmed away.
   */
  lemma TextSpaceShape(s: string)
    requires s != [] && !IsSpace(s[0]) && !IsSpace(s[|s| - 1])
    ensures ToTextSpace(s) == [ToUpper(s[0])] + MarkCapitals(s[1..], ' ')
  {
    var tail := MarkCapitals(s[1..], ' ');
    var y := [ToUpper(s[0])] + tail;
    if |s| > 1 {
      MarkCapitalsLast(s[1..], ' ');
      assert y[|y| - 1] == tail[|tail| - 1];
    }
    assert TrimEnd(y) == y;
    assert TrimStart(y) == y;
    if IsUpper(s[0]) {
      var marked := [' ', s[0]] + tail;
      assert MarkCapitals(s, ' ') == marked;
      assert marked[1..] == [s[0]] + tail;
      assert UpperFirst(marked) == marked;
      assert TrimStart(marked) == TrimStart([s[0]] + tail);
    } else {
      assert MarkCapitals(s, ' ') == [s[0]] + tail;
      assert UpperFirst([s[0]] + tail) == y;
    }
  }

  /** The result is one character longer than the input per capital, less one for a leading capital. */
  lemma TextSpaceLength(s: string)
    requires s != [] && !IsSpace(s[0]) && !IsSpace(s[|s| - 1])
    ensures |ToTextSpace(s)| == |s| + CountUpper(s) - (if IsUpper(s[0]) then 1 else 0)
  {
    TextSpaceShape(s);
    MarkCapitalsLength(s[1..], ' ');
  }

  /** The first character is raised, and every later capital follows a space. */
  lemma TextSpaceCapitals(s: string)
    requires s != [] && !IsSpace(s[0]) && !IsSpace(s[|s| - 1])
    ensures ToTextSpace(s) != [] && ToTextSpace(s)[0] == ToUpper(s[0])
    ensures forall i :: 0 < i < |ToTextSpace(s)| && IsUpper(ToTextSpace(s)[i]) ==> ToTextSpace(s)[i - 1] == ' '
  {
    TextSpaceShape(s);
    var tail := MarkCapitals(s[1..], ' ');
    MarkCapitalsSpaced(s[1..], ' ');
    var r := ToTextSpace(s);
    forall i | 0 < i < |r| && IsUpper(r[i])
      ensures r[i - 1] == ' '
    {
      assert r[i] == tail[i - 1];
      assert r[i - 1] == tail[i - 2];
    }
  }

  // ---------------------------------------------------------------------------
  // toSnake

  /**
   * For an identifier without surrounding white space, toSnake lowers the input
   * with '-' before every capital and drops the first character of that: so
   * "FooBar" gives "foo-bar" but "fooBar" gives "oo-bar".
   */
  lemma SnakeShape(s: string)
    requires s != [] && !IsSpace(s[0]) && !IsSpace(s[|s| - 1])
    ensures ToSnake(s) == LowerAll(MarkCapitals(s, '-'))[1..]
  {
    var t := MarkCapitals(s, '-');
    SnakeTrimmed(s);
    LowerAllLowerFirst(t);
    assert |LowerAll(t)| == |t|;
  }

  /** The first steps of toSnake: lowering the first character, then trimming, which finds nothing to trim. */
  lemma SnakeTrimmed(s: string)
    requires s != [] && !IsSpace(s[0]) && !IsSpace(s[|s| - 1])
    ensures MarkCapitals(s, '-') != []
    ensures var t := MarkCapitals(s, '-');
            Trim(LowerFirst(t)) == [ToLower(t[0])] + t[1..]
  {
    var t := MarkCapitals(s, '-');
    MarkCapitalsLast(s, '-');
    MarkCapitalsFirst(s, '-');
    var u := [ToLower(t[0])] + t[1..];
    assert LowerFirst(t) == u;
    LowerKeepsSpace(t[0]);
    assert !IsSpace(u[|u| - 1]) by {
      if |t| > 1 {
        assert u[|u| - 1] == t[|t| - 1];
      }
    }
    TrimUnchanged(u);
  }

  lemma LowerKeepsSpace(c: char)
    ensures IsSpace(ToLower(c)) <==> IsSpace(c)
  {
  }

  lemma MarkCapitalsFirst(s: string, mark: char)
    requires s != [] && !IsSpace(mark) && mark != '\n' && mark != '\r'
    ensures MarkCapitals(s, mark) != []
    ensures MarkCapitals(s, mark)[0] == if IsUpper(s[0]) then mark else s[0]
  {
  }

  lemma TrimUnchanged(u: string)
    requires u != [] && !IsSpace(u[0]) && !IsSpace(u[|u| - 1])
    ensures Trim(u) == u
  {
    assert TrimStart(u) == u;
  }

  lemma LowerAllLowerFirst(t: string)
    requires t != []
    ensures LowerAll([ToLower(t[0])] + t[1..]) == LowerAll(t)
  {
    var u := [ToLower(t[0])] + t[1..];
    assert forall i :: 0 < i < |t| ==> u[i] == t[i];
  }

  /** toSnake never returns a capital letter. */
  lemma SnakeHasNoCapitals(s: string)
    ensures forall c :: c in ToSnake(s) ==> !IsUpper(c)
  {
    var low := LowerAll(Trim(LowerFirst(MarkCapitals(s, '-'))));
    assert forall c :: c in low ==> !IsUpper(c);
    assert forall c :: c in DropFirst(low) ==> c in low;
  }

  /** On a capitalised identifier, toSnake gives its kebab-case form: "EventBridge" gives "event-bridge". */
  lemma SnakeOfCapitalized(s: string)
    requires s != [] && IsUpper(s[0]) && !IsSpace(s[|s| - 1])
    ensures ToSnake(s) == [ToLower(s[0])] + LowerAll(MarkCapitals(s[1..], '-'))
  {
    SnakeShape(s);
    var tail := MarkCapitals(s[1..], '-');
    assert MarkCapitals(s, '-') == ['-', s[0]] + tail;
    LowerAllConcat(['-', s[0]], tail);
    assert LowerAll(['-', s[0]]) == ['-', ToLower(s[0])];
  }

  // ---------------------------------------------------------------------------
  // toCamelCase

  /** The result holds no white space and no '-'. */
  lemma CamelHasNoSeparators(s: string)
    ensures forall c :: c in ToCamelCase(s) ==> !IsSpace(c) && c != '-'
  {
    var marks := CamelMarks(s);
    DeleteSpacesSub(marks);
    DeleteCharSub(DeleteSpaces(marks), ' ');
    DeleteCharSub(DeleteChar(DeleteSpaces(marks), ' '), '-');
  }

  /** An input that starts with a word character gives a result that starts with it lowered. */
  lemma CamelFirst(s: string)
    requires s != [] && IsWord(s[0])
    ensures ToCamelCase(s) != [] && ToCamelCase(s)[0] == ToLower(s[0])
  {
    var marks := CamelMarks(s);
    var c := ToLower(s[0]);
    assert marks[0] == c;
    assert marks == [c] + marks[1..];
    var a := DeleteSpaces(marks[1..]);
    assert DeleteSpaces(marks) == [c] + a;
    var b := DeleteChar(a, ' ');
    assert ([c] + a)[1..] == a;
    assert DeleteChar([c] + a, ' ') == [c] + b;
    assert ([c] + b)[1..] == b;
    assert DeleteChar([c] + b, '-') == [c] + DeleteChar(b, '-');
  }

  /**
   * The first replacement of toCamelCase after offset 0: a word character that
   * follows a non-word character is raised, every other character is kept.
   */
  lemma CamelMarksAt(s: string, i: nat)
    requires 0 < i < |s|
    ensures CamelMarks(s)[i] == if IsWord(s[i]) && !IsWord(s[i - 1]) then ToUpper(s[i]) else s[i]
  {
  }

  lemma CamelMarksOfTwoWords(a: string, b: string, sep: char)
    requires a != [] && b != [] && AllAlnum(a) && AllAlnum(b)
    requires !IsWord(sep) && !IsUpper(sep)
    ensures CamelMarks(a + [sep] + b) == [ToLower(a[0])] + a[1..] + [sep] + ([ToUpper(b[0])] + b[1..])
  {
    var s := a + [sep] + b;
    var n := |a|;
    var expected := [ToLower(a[0])] + a[1..] + [sep] + ([ToUpper(b[0])] + b[1..]);
    var marks := CamelMarks(s);
    assert a[0] in a && b[0] in b;
    forall i | 0 <= i < |s|
      ensures marks[i] == expected[i]
    {
      if 0 < i < n {
        assert s[i] == a[i] && s[i - 1] == a[i - 1];
        assert a[i] in a && a[i - 1] in a;
      } else if i > n + 1 {
        assert s[i] == b[i - n - 1] && s[i - 1] == b[i - n - 2];
        assert b[i - n - 1] in b && b[i - n - 2] in b;
      }
    }
  }

  /** The three deletions of toCamelCase drop a lone ' ' or '-' between two alphanumeric strings. */
  lemma SeparatorDeleted(left: string, right: string, sep: char)
    requires AllAlnum(left) && AllAlnum(right)
    requires sep == '-' || sep == ' '
    ensures DeleteChar(DeleteChar(DeleteSpaces(left + [sep] + right), ' '), '-') == left + right
  {
    if sep == ' ' {
      SpaceDeleted(left, right);
    } else {
      DashDeleted(left, right);
    }
  }

  lemma SpaceDeleted(left: string, right: string)
    requires AllAlnum(left) && AllAlnum(right)
    ensures DeleteChar(DeleteChar(DeleteSpaces(left + [' '] + right), ' '), '-') == left + right
  {
    SpaceDropped(left, right);
    AlnumUntouched(left + right);
  }

  lemma DashDeleted(left: string, right: string)
    requires AllAlnum(left) && AllAlnum(right)
    ensures DeleteChar(DeleteChar(DeleteSpaces(left + ['-'] + right), ' '), '-') == left + right
  {
    DashKept(left, right);
    DashDropped(left, right);
  }

  /** An alphanumeric string has no space, no ' ' and no '-' to delete. */
  lemma AlnumUntouched(s: string)
    requires AllAlnum(s)
    ensures DeleteSpaces(s) == s && DeleteChar(s, ' ') == s && DeleteChar(s, '-') == s
  {
    DeleteSpacesNone(s);
    DeleteCharNone(s, ' ');
    DeleteCharNone(s, '-');
  }

  lemma SpaceDropped(left: string, right: string)
    requires AllAlnum(left) && AllAlnum(right)
    ensures DeleteSpaces(left + [' '] + right) == left + right
  {
    DeleteSpacesSkip(left, ' ', right);
  }

  /** Deleting whitespace around one space character between two space-free strings joins them. */
  lemma {:induction false} DeleteSpacesSkip(a: string, x: char, b: string)
    requires NoSpace(a) && NoSpace(b) && IsSpace(x)
    ensures DeleteSpaces(a + [x] + b) == a + b
    decreases |a|
  {
    if a == [] {
      assert a + [x] + b == [x] + b;
      assert ([x] + b)[1..] == b;
      DeleteSpacesNone(b);
    } else {
      assert (a + [x] + b)[1..] == a[1..] + [x] + b;
      assert (a + [x] + b)[0] == a[0];
      assert NoSpace(a[1..]) by {
        SliceIn(a, 1, |a|);
      }
      DeleteSpacesSkip(a[1..], x, b);
      assert a + b == [a[0]] + (a[1..] + b);
    }
  }

  /** Deleting `x` from two strings without `x` joined by one `x` joins them. */
  lemma {:induction false} DeleteCharSkip(a: string, x: char, b: string)
    requires x !in a && x !in b
    ensures DeleteChar(a + [x] + b, x) == a + b
    decreases |a|
  {
    if a == [] {
      assert a + [x] + b == [x] + b;
      assert ([x] + b)[1..] == b;
      DeleteCharNone(b, x);
    } else {
      assert (a + [x] + b)[1..] == a[1..] + [x] + b;
      assert (a + [x] + b)[0] == a[0];
      assert x !in a[1..] by {
        SliceIn(a, 1, |a|);
      }
      DeleteCharSkip(a[1..], x, b);
      assert a + b == [a[0]] + (a[1..] + b);
    }
  }

  lemma DashKept(left: string, right: string)
    requires AllAlnum(left) && AllAlnum(right)
    ensures DeleteSpaces(left + ['-'] + right) == left + ['-'] + right
    ensures DeleteChar(left + ['-'] + right, ' ') == left + ['-'] + right
  {
    var dashed := left + ['-'] + right;
    assert forall c :: c in dashed ==> IsAlnum(c) || c == '-';
    DeleteSpacesNone(dashed);
    DeleteCharNone(dashed, ' ');
  }

  lemma DashDropped(left: string, right: string)
    requires AllAlnum(left) && AllAlnum(right)
    ensures DeleteChar(left + ['-'] + right, '-') == left + right
  {
    assert '-' !in left && '-' !in right;
    DeleteCharSkip(left, '-', right);
  }

  /** Two alphanumeric words joined by '-' or a space: "get-user" gives "getUser". */
  lemma CamelOfTwoWords(a: string, b: string, sep: char)
    requires a != [] && b != [] && AllAlnum(a) && AllAlnum(b)
    requires sep == '-' || sep == ' '
    ensures ToCamelCase(a + [sep] + b) == [ToLower(a[0])] + a[1..] + [ToUpper(b[0])] + b[1..]
  {
    var left := [ToLower(a[0])] + a[1..];
    var right := [ToUpper(b[0])] + b[1..];
    CamelMarksOfTwoWords(a, b, sep);
    assert AllAlnum(left) && AllAlnum(right) by {
      assert a[0] in a && b[0] in b;
      SliceIn(a, 1, |a|);
      SliceIn(b, 1, |b|);
    }
    SeparatorDeleted(left, right, sep);
  }

  // ---------------------------------------------------------------------------
  // toPascalCase

  /** The result holds letters and digits only: separators become spaces, punctuation goes, spaces go. */
  lemma PascalIsAlnum(s: string)
    ensures AllAlnum(ToPascalCase(s))
  {
    var collapsed := CollapseDashes(s);
    CollapseDashesSub(s);
    var kept := DropPunctuation(collapsed);
    DropPunctuationSub(collapsed);
    assert AlnumOrSpace(kept);
    var words := CapitalizeWords(kept);
    CapitalizeWordsClass(kept);
    var joined := DeleteSpaces(words);
    DeleteSpacesSub(words);
    UpperFirstWordAlnum(joined);
    var raised := UpperFirstWord(joined);
    DeleteCharSub(raised, ' ');
    DeleteCharSub(DeleteChar(raised, ' '), '-');
  }

  /** An input of letters and digits only comes back with just its first character raised. */
  lemma PascalOfAlnum(s: string)
    requires s != [] && AllAlnum(s)
    ensures ToPascalCase(s) == [ToUpper(s[0])] + s[1..]
  {
    CollapseDashesNone(s);
    DropPunctuationNone(s);
    CapitalizeWordsNone(s);
    DeleteSpacesNone(s);
    assert s[0] in s;
    var raised := [ToUpper(s[0])] + s[1..];
    assert UpperFirstWord(s) == raised;
    assert forall c :: c in s[1..] ==> c in s;
    DeleteCharNone(raised, ' ');
    DeleteCharNone(raised, '-');
  }

  /** Once steps 1 to 4 leave a non-empty string of letters and digits, toPascalCase raises its first character. */
  lemma PascalVia(s: string, x: string)
    requires DeleteSpaces(CapitalizeWords(DropPunctuation(CollapseDashes(s)))) == x
    requires x != [] && AllAlnum(x)
    ensures ToPascalCase(s) == [ToUpper(x[0])] + x[1..]
  {
    assert x[0] in x;
    var raised := [ToUpper(x[0])] + x[1..];
    assert UpperFirstWord(x) == raised;
    SliceIn(x, 1, |x|);
    DeleteCharNone(raised, ' ');
    DeleteCharNone(raised, '-');
  }

  /** Step 1 of toPascalCase turns a lone '-', '_' or ' ' between two alphanumeric words into a space. */
  lemma SeparatorCollapsed(a: string, b: string, sep: char)
    requires AllAlnum(a) && b != [] && AllAlnum(b)
    requires sep == '-' || sep == '_' || sep == ' '
    ensures CollapseDashes(a + [sep] + b) == a + ([' '] + b)
  {
    assert a + [sep] + b == a + ([sep] + b);
    assert b[0] in b;
    CollapseDashesPrefix(a, [sep] + b);
    CollapseDashesNone(b);
    assert ([sep] + b)[1..] == b;
    if sep != ' ' {
      assert RunLength([sep] + b, Dash) == 1;
    }
    assert CollapseDashes([sep] + b) == [' '] + b;
  }

  /** Step 3 of toPascalCase on "a b" with |b| >= 2: `b` is capitalised and the rest of it lowered. */
  lemma SecondWordCapitalized(a: string, b: string)
    requires NoSpace(a) && |b| >= 2 && AllAlnum(b)
    ensures CapitalizeWords(a + ([' '] + b)) == a + ([ToUpper(b[0])] + LowerAll(b[1..]))
  {
    CapitalizeWordsPrefix(a, [' '] + b);
    SpacedWordCapitalized(b);
  }

  /** Step 3 on " b" with |b| >= 2: one match, `(.)` = b[0] and `(\w+)` = the rest of b. */
  lemma SpacedWordCapitalized(b: string)
    requires |b| >= 2 && AllAlnum(b)
    ensures CapitalizeWords([' '] + b) == [ToUpper(b[0])] + LowerAll(b[1..])
  {
    SpacedWordRuns(b);
    SpacedMatchStep([' '] + b, 1, |b|);
    assert b[1..|b|] == b[1..] && b[|b|..] == [];
  }

  /** One step of CapitalizeWords where a space run of length r is followed by `(.)(\w+)` of length m. */
  lemma SpacedMatchStep(s: string, r: nat, m: nat)
    requires s != [] && IsSpace(s[0]) && r == RunLength(s, Space) && r <= |s|
    requires |s[r..]| >= 2 && IsDot(s[r..][0]) && IsWord(s[r..][1]) && m == 1 + RunLength(s[r..][1..], Word)
    ensures m <= |s[r..]|
    ensures CapitalizeWords(s) == [ToUpper(s[r..][0])] + LowerAll(s[r..][1..m]) + CapitalizeWords(s[r..][m..])
  {
  }

  /** The runs CapitalizeWords measures on " b": one space, then `(.)` = b[0] and `(\w+)` to the end of b. */
  lemma SpacedWordRuns(b: string)
    requires |b| >= 2 && AllAlnum(b)
    ensures RunLength([' '] + b, Space) == 1 && ([' '] + b)[1..] == b
    ensures IsDot(b[0]) && IsWord(b[1])
    ensures 1 + RunLength(b[1..], Word) == |b|
  {
    var t := [' '] + b;
    assert t[1..] == b;
    assert b[0] in b && b[1] in b;
    assert RunLength(t, Space) == 1 by {
      assert t[0] == ' ';
      assert RunLength(b, Space) == 0;
    }
    SliceIn(b, 1, |b|);
    RunLengthAll(b[1..], Word);
  }

  /**
   * Two alphanumeric words joined by '-', '_' or a space, the second at least two
   * characters long: the second word is capitalised and the rest of it lowered,
   * the first keeps its case apart from its first character ("foo-BAR" gives "FooBar").
   */
  lemma PascalOfTwoWords(a: string, b: string, sep: char)
    requires a != [] && |b| >= 2 && AllAlnum(a) && AllAlnum(b)
    requires sep == '-' || sep == '_' || sep == ' '
    ensures ToPascalCase(a + [sep] + b) == [ToUpper(a[0])] + a[1..] + [ToUpper(b[0])] + LowerAll(b[1..])
  {
    var word := [ToUpper(b[0])] + LowerAll(b[1..]);
    var x := a + word;
    TwoWordsJoined(a, b, sep);
    PascalVia(a + [sep] + b, x);
    HeadRegroup(a, [ToUpper(b[0])], LowerAll(b[1..]), ToUpper(a[0]));
  }

  /** `a + (u + v)` with its first character replaced by `c`. */
  lemma HeadRegroup(a: string, u: string, v: string, c: char)
    requires a != []
    ensures (a + (u + v))[0] == a[0]
    ensures [c] + (a + (u + v))[1..] == [c] + a[1..] + u + v
  {
    assert (a + (u + v))[1..] == a[1..] + (u + v);
  }

  /** Steps 1 to 4 of toPascalCase on two words: the second word capitalised and the separator gone. */
  lemma TwoWordsJoined(a: string, b: string, sep: char)
    requires a != [] && |b| >= 2 && AllAlnum(a) && AllAlnum(b)
    requires sep == '-' || sep == '_' || sep == ' '
    ensures var x := a + ([ToUpper(b[0])] + LowerAll(b[1..]));
            && x != [] && AllAlnum(x)
            && DeleteSpaces(CapitalizeWords(DropPunctuation(CollapseDashes(a + [sep] + b)))) == x
  {
    var x := a + ([ToUpper(b[0])] + LowerAll(b[1..]));
    SeparatorSpaced(a, b, sep);
    SecondWordCapitalized(a, b);
    CapitalizedWordAlnum(a, b);
    DeleteSpacesNone(x);
  }

  /** Steps 1 and 2 of toPascalCase on two words: the separator becomes one space. */
  lemma SeparatorSpaced(a: string, b: string, sep: char)
    requires AllAlnum(a) && b != [] && AllAlnum(b)
    requires sep == '-' || sep == '_' || sep == ' '
    ensures DropPunctuation(CollapseDashes(a + [sep] + b)) == a + ([' '] + b)
  {
    var spaced := a + ([' '] + b);
    SeparatorCollapsed(a, b, sep);
    assert forall c :: c in spaced ==> c in a || c == ' ' || c in b;
    DropPunctuationNone(spaced);
  }

  lemma CapitalizedWordAlnum(a: string, b: string)
    requires AllAlnum(a) && |b| >= 2 && AllAlnum(b)
    ensures AllAlnum(a + ([ToUpper(b[0])] + LowerAll(b[1..])))
  {
    assert b[0] in b;
    SliceIn(b, 1, |b|);
    LowerAllClass(b[1..]);
  }

  /** Steps 1 to 3 of toPascalCase leave a leading alphanumeric word alone when only letters, digits and spaces follow. */
  lemma AlnumPrefix(a: string, t: string)
    requires AllAlnum(a) && forall x :: x in t ==> IsAlnum(x) || x == ' '
    ensures CapitalizeWords(DropPunctuation(CollapseDashes(a + t))) == a + CapitalizeWords(t)
  {
    var s := a + t;
    assert forall x :: x in s ==> x in a || x in t;
    CollapseDashesNone(s);
    DropPunctuationNone(s);
    CapitalizeWordsPrefix(a, t);
  }

  /** Step 3 on a single space and one word character: `\s+(.)(\w+)` finds no match. */
  lemma NoMatchOneLetter(c: char)
    requires IsWord(c)
    ensures CapitalizeWords([' ', c]) == [' ', c]
  {
    assert [' ', c][1..] == [c];
    assert RunLength([' ', c], Space) == 1;
    assert [c][1..] == [];
    assert CapitalizeWords([c]) == [c];
  }

  /** Step 3 on two spaces and one word character: after backtracking the match lowers the character. */
  lemma BacktrackOneLetter(c: char)
    requires IsWord(c)
    ensures CapitalizeWords([' ', ' ', c]) == [' ', ToLower(c)]
  {
    var tail := [' ', ' ', c];
    assert tail[1..] == [' ', c];
    assert [' ', c][1..] == [c];
    assert RunLength([c], Space) == 0;
    assert RunLength([' ', c], Space) == 1;
    assert RunLength(tail, Space) == 2;
    assert tail[2..] == [c];
    assert RunLength([c], Word) == 1;
    assert [c][..1] == [c] && [c][1..] == [];
    assert LowerAll([c]) == [ToLower(c)];
  }

  /**
   * One '-', '_' or space before a one-letter word: the separator becomes a single
   * space, step 3 finds no match, and the letter keeps its case ("foo-b" gives
   * "Foob", "foo B" gives "FooB").
   */
  lemma PascalOneLetterWord(a: string, c: char, sep: char)
    requires a != [] && AllAlnum(a) && IsAlnum(c)
    requires sep == '-' || sep == '_' || sep == ' '
    ensures ToPascalCase(a + [sep, c]) == [ToUpper(a[0])] + a[1..] + [c]
  {
    var x := a + [c];
    OneLetterJoined(a, c, sep);
    assert AllAlnum(x);
    PascalVia(a + [sep, c], x);
    assert x[1..] == a[1..] + [c];
  }

  /** Steps 1 to 4 of toPascalCase on a word, a separator and one letter: only the separator goes. */
  lemma OneLetterJoined(a: string, c: char, sep: char)
    requires AllAlnum(a) && IsAlnum(c)
    requires sep == '-' || sep == '_' || sep == ' '
    ensures DeleteSpaces(CapitalizeWords(DropPunctuation(CollapseDashes(a + [sep, c])))) == a + [c]
  {
    OneLetterSpaced(a, c, sep);
    OneLetterUnmatched(a, c);
    SpaceBeforeLetter(a, c);
  }

  lemma OneLetterSpaced(a: string, c: char, sep: char)
    requires AllAlnum(a) && IsAlnum(c)
    requires sep == '-' || sep == '_' || sep == ' '
    ensures DropPunctuation(CollapseDashes(a + [sep, c])) == a + [' ', c]
  {
    assert a + [sep, c] == a + [sep] + [c];
    SeparatorSpaced(a, [c], sep);
    assert a + ([' '] + [c]) == a + [' ', c];
  }

  lemma OneLetterUnmatched(a: string, c: char)
    requires AllAlnum(a) && IsAlnum(c)
    ensures CapitalizeWords(a + [' ', c]) == a + [' ', c]
  {
    CapitalizeWordsPrefix(a, [' ', c]);
    NoMatchOneLetter(c);
  }

  lemma SpaceBeforeLetter(a: string, c: char)
    requires AllAlnum(a) && IsAlnum(c)
    ensures DeleteSpaces(a + [' ', c]) == a + [c]
  {
    assert a + [' ', c] == a + [' '] + [c];
    DeleteSpacesSkip(a, ' ', [c]);
  }

  /**
   * Two spaces before a one-letter word: the engine backtracks so that `(.)`
   * takes the second space and `(\w+)` the letter, which is therefore lowered
   * ("foo  B" gives "Foob").
   */
  lemma PascalDoubleSpaceOneLetter(a: string, c: char)
    requires a != [] && AllAlnum(a) && IsAlnum(c)
    ensures ToPascalCase(a + [' ', ' ', c]) == [ToUpper(a[0])] + a[1..] + [ToLower(c)]
  {
    var low := ToLower(c);
    assert IsAlnum(low);
    var x := a + [low];
    assert DeleteSpaces(CapitalizeWords(DropPunctuation(CollapseDashes(a + [' ', ' ', c])))) == x by {
      AlnumPrefix(a, [' ', ' ', c]);
      BacktrackOneLetter(c);
      SpaceBeforeLetter(a, low);
    }
    assert AllAlnum(x);
    PascalVia(a + [' ', ' ', c], x);
    assert x[1..] == a[1..] + [low];
  }

  // ---------------------------------------------------------------------------
  // The path segment of a catch-all event: toSnake(toPascalCase(key))

  /** A key of letters and digits that starts with a letter gives its kebab-case form: "eventBridge" gives "event-bridge". */
  lemma EventKeySlug(key: string)
    requires key != [] && AllAlnum(key) && (IsUpper(key[0]) || IsLower(key[0]))
    ensures ToSnake(ToPascalCase(key)) == [ToLower(key[0])] + LowerAll(MarkCapitals(key[1..], '-'))
  {
    PascalOfAlnum(key);
    var p := [ToUpper(key[0])] + key[1..];
    RaisedKey(key);
    SnakeOfCapitalized(p);
  }

  /** The key with its first letter raised is a capitalised identifier with the same tail. */
  lemma RaisedKey(key: string)
    requires key != [] && AllAlnum(key) && (IsUpper(key[0]) || IsLower(key[0]))
    ensures var p := [ToUpper(key[0])] + key[1..];
            && p != [] && IsUpper(p[0]) && !IsSpace(p[|p| - 1])
            && p[1..] == key[1..] && ToLower(p[0]) == ToLower(key[0])
  {
    var p := [ToUpper(key[0])] + key[1..];
    assert key[|key| - 1] in key;
    assert p[|p| - 1] == if |key| > 1 then key[|key| - 1] else ToUpper(key[0]);
  }
}
