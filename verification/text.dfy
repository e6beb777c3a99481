/**
 * The text formatter of the page script: the capitalisation modes of
 * `changeTextCapitalization` and the full-name composition of `renderFullName`.
 * Case mapping is modelled on ASCII letters only; every other character is
 * case-invariant.
 */
module Text {

  // ---------------------------------------------------------------------------
  // Character classes

  predicate IsAsciiUpper(c: char) { 'A' <= c <= 'Z' }

  predicate IsAsciiLower(c: char) { 'a' <= c <= 'z' }

  /** The regular-expression class `\w`: ASCII letters, digits and underscore. */
  predicate IsWord(c: char) {
    IsAsciiUpper(c) || IsAsciiLower(c) || '0' <= c <= '9' || c == '_'
  }

  /** The regular-expression class `\s`: the ECMAScript white space and line terminators. */
  predicate IsSpace(c: char) {
    ('\t' <= c <= '\r') || c == ' '
    || c == '\U{A0}' || c == '\U{1680}' || ('\U{2000}' <= c <= '\U{200A}')
    || c == '\U{2028}' || c == '\U{2029}' || c == '\U{202F}' || c == '\U{205F}'
    || c == '\U{3000}' || c == '\U{FEFF}'
  }

  function UpperChar(c: char): (u: char)
    ensures !IsAsciiLower(u)
  {
    if IsAsciiLower(c) then (c as int - 32) as char else c
  }

  function LowerChar(c: char): (l: char)
    ensures !IsAsciiUpper(l)
  {
    if IsAsciiUpper(c) then (c as int + 32) as char else c
  }

  /** Two characters that differ at most in letter case. */
  predicate SameLetter(a: char, b: char) {
    LowerChar(a) == LowerChar(b)
  }

  // ---------------------------------------------------------------------------
  // Whole-string case mapping (`toLocaleUpperCase`, `toLocaleLowerCase`)

  function Upper(s: string): (r: string)
    ensures |r| == |s|
  {
    if s == [] then [] else [UpperChar(s[0])] + Upper(s[1..])
  }

  function Lower(s: string): (r: string)
    ensures |r| == |s|
  {
    if s == [] then [] else [LowerChar(s[0])] + Lower(s[1..])
  }

  // ---------------------------------------------------------------------------
  // Title mode: `text.replace(/(^\w|\s\w)(\S*)/g, ...)`

  /** The end of the maximal run of non-white-space characters starting at `i` (what `\S*` consumes). */
  function RunEnd(s: string, i: nat): (e: nat)
    requires i <= |s|
    ensures i <= e <= |s|
    ensures e == |s| || IsSpace(s[e])
    ensures forall k {:trigger IsSpace(s[k])} :: i <= k < e ==> !IsSpace(s[k])
    decreases |s| - i
  {
    if i == |s| || IsSpace(s[i]) then i else RunEnd(s, i + 1)
  }

  /**
   * One step of the global replace from position `i`: what it emits and where
   * it resumes. At the start of the string a word character opens a match,
   * elsewhere a white-space character followed by a word character does; the
   * match runs on over `\S*`, its first group is upper-cased and the rest
   * lower-cased. Any other position is copied and the scan moves on by one.
   */
  function TitleStep(s: string, i: nat): (r: (string, nat))
    requires i < |s|
    ensures i < r.1 <= |s| && |r.0| == r.1 - i
  {
    if i == 0 && IsWord(s[0]) then
      var e := RunEnd(s, 1);
      (Upper(s[..1]) + Lower(s[1..e]), e)
    else if IsSpace(s[i]) && i + 1 < |s| && IsWord(s[i + 1]) then
      var e := RunEnd(s, i + 2);
      (Upper(s[i..i + 2]) + Lower(s[i + 2..e]), e)
    else
      ([s[i]], i + 1)
  }

  /** The global replace, scanning from position `i`. */
  function TitleFrom(s: string, i: nat): (r: string)
    requires i <= |s|
    ensures |r| == |s| - i
    decreases |s| - i
  {
    if i == |s| then []
    else
      var step := TitleStep(s, i);
      step.0 + TitleFrom(s, step.1)
  }

  function Title(s: string): string {
    TitleFrom(s, 0)
  }

  /** The first position of the non-white-space run that contains position `k`. */
  function RunStart(s: string, k: nat): (j: nat)
    requires k < |s|
    ensures j <= k
    ensures j == 0 || IsSpace(s[j - 1])
    ensures forall m {:trigger IsSpace(s[m])} :: j <= m < k ==> !IsSpace(s[m])
  {
    if k == 0 || IsSpace(s[k - 1]) then k else RunStart(s, k - 1)
  }

  /**
   * Reference definition of title mode, one character at a time: white space is
   * kept; in a run that starts with a word character the first character is
   * upper-cased and the others lower-cased; a run that starts with any other
   * character is kept as it is.
   */
  function TitleChar(s: string, k: nat): char
    requires k < |s|
  {
    if IsSpace(s[k]) then s[k]
    else
      var j := RunStart(s, k);
      if !IsWord(s[j]) then s[k]
      else if k == j then UpperChar(s[k])
      else LowerChar(s[k])
  }

  // ---------------------------------------------------------------------------
  // `changeTextCapitalization`

  const UpperMode := "upper"
  const LowerMode := "lower"
  const FirstMode := "first"
  const TitleMode := "title"

  function ChangeTextCapitalization(text: string, format: string): string {
    if format == UpperMode then Upper(text)
    else if format == LowerMode then Lower(text)
    else if format == FirstMode then (if text == "" then text else Upper(text[..1]) + Lower(text[1..]))
    else if format == TitleMode then Title(text)
    else text
  }

  // ---------------------------------------------------------------------------
  // Full-name composition

  /** `s.replaceAll(target, replacement)` for a one-character target: every occurrence, left to right, replaced verbatim. */
  function ReplaceAll(s: string, target: char, replacement: string): string {
    if s == [] then []
    else (if s[0] == target then replacement else [s[0]]) + ReplaceAll(s[1..], target, replacement)
  }

  datatype NameFormat = NameFormat(pattern: string, textCase: string)

  datatype FullNameSpec = FullNameSpec(firstName: string, middleName: string, lastName: string, format: NameFormat)

  /** The three replacements of `renderFullName`, in the order the source performs them. */
  function SubstituteNames(pattern: string, first: string, middle: string, last: string): string {
    ReplaceAll(ReplaceAll(ReplaceAll(pattern, 'f', first), 'm', middle), 'l', last)
  }

  function ComposeFullName(spec: FullNameSpec): string {
    ChangeTextCapitalization(
      SubstituteNames(spec.format.pattern, spec.firstName, spec.middleName, spec.lastName),
      spec.format.textCase)
  }

  /**
   * Reference definition: each placeholder letter of the pattern replaced by its
   * name part in one pass, so that a substituted part is never rewritten.
   */
  function SubstituteOnce(pattern: string, first: string, middle: string, last: string): string {
    if pattern == [] then []
    else
      var c := pattern[0];
      (if c == 'f' then first else if c == 'm' then middle else if c == 'l' then last else [c])
      + SubstituteOnce(pattern[1..], first, middle, last)
  }

  // ---------------------------------------------------------------------------
  // Lemmas: case mapping

  /** Upper-casing a string upper-cases each of its characters. */
  lemma {:induction false} UpperAt(s: string)
    ensures forall i :: 0 <= i < |s| ==> Upper(s)[i] == UpperChar(s[i])
  {
    if s != [] {
      UpperAt(s[1..]);
      forall i | 1 <= i < |s|
        ensures Upper(s)[i] == UpperChar(s[i])
      {
        assert Upper(s)[i] == Upper(s[1..])[i - 1];
      }
    }
  }

  /** Lower-casing a string lower-cases each of its characters. */
  lemma {:induction false} LowerAt(s: string)
    ensures forall i :: 0 <= i < |s| ==> Lower(s)[i] == LowerChar(s[i])
  {
    if s != [] {
      LowerAt(s[1..]);
      forall i | 1 <= i < |s|
        ensures Lower(s)[i] == LowerChar(s[i])
      {
        assert Lower(s)[i] == Lower(s[1..])[i - 1];
      }
    }
  }

  lemma UpperLowerChangeOnlyCase(s: string)
    ensures |Upper(s)| == |s| && |Lower(s)| == |s|
    ensures forall i :: 0 <= i < |s| ==> SameLetter(Upper(s)[i], s[i]) && !IsAsciiLower(Upper(s)[i])
    ensures forall i :: 0 <= i < |s| ==> SameLetter(Lower(s)[i], s[i]) && !IsAsciiUpper(Lower(s)[i])
    ensures forall i :: 0 <= i < |s| && !IsAsciiUpper(s[i]) && !IsAsciiLower(s[i]) ==>
      Upper(s)[i] == s[i] && Lower(s)[i] == s[i]
  {
    UpperAt(s);
    LowerAt(s);
  }

  lemma {:induction false} UpperIdempotent(s: string)
    ensures Upper(Upper(s)) == Upper(s)
  {
    if s != [] {
      UpperIdempotent(s[1..]);
      assert Upper(s)[1..] == Upper(s[1..]);
    }
  }

  lemma {:induction false} LowerIdempotent(s: string)
    ensures Lower(Lower(s)) == Lower(s)
  {
    if s != [] {
      LowerIdempotent(s[1..]);
      assert Lower(s)[1..] == Lower(s[1..]);
    }
  }

  lemma FirstModeShape(text: string)
    ensures text == "" ==> ChangeTextCapitalization(text, FirstMode) == ""
    ensures text != "" ==>
      var r := ChangeTextCapitalization(text, FirstMode);
      |r| == |text| && r[0] == UpperChar(text[0])
      && forall i :: 1 <= i < |text| ==> r[i] == LowerChar(text[i])
  {
    if text != "" {
      UpperAt(text[..1]);
      LowerAt(text[1..]);
    }
  }

  lemma OtherModesUnchanged(text: string, format: string)
    requires format != UpperMode && format != LowerMode && format != FirstMode && format != TitleMode
    ensures ChangeTextCapitalization(text, format) == text
  {
  }

  // ---------------------------------------------------------------------------
  // Lemmas: title mode against its reference definition

  lemma {:induction false} RunStartIs(s: string, j: nat, k: nat)
    requires j <= k < |s|
    requires j == 0 || IsSpace(s[j - 1])
    requires forall m {:trigger IsSpace(s[m])} :: j <= m < k ==> !IsSpace(s[m])
    ensures RunStart(s, k) == j
    decreases k - j
  {
    if k > j {
      RunStartIs(s, j, k - 1);
    }
  }

  /** Position `i` is one the scan can reach without being inside a match it should have made. */
  predicate ScanPoint(s: string, i: nat)
    requires i <= |s|
  {
    i == |s| || i == 0 || IsSpace(s[i]) || !IsWord(s[RunStart(s, i)])
  }

  /** No match of the global replace starts at position `i`, so the step there copies one character. */
  predicate Copies(s: string, i: nat)
    requires i < |s|
  {
    !(i == 0 && IsWord(s[0])) && !(IsSpace(s[i]) && i + 1 < |s| && IsWord(s[i + 1]))
  }

  /** Case mapping keeps white space and word characters in their class. */
  lemma CaseMapKeepsClasses(c: char)
    ensures IsSpace(UpperChar(c)) == IsSpace(c) && IsWord(UpperChar(c)) == IsWord(c)
    ensures IsSpace(LowerChar(c)) == IsSpace(c) && IsWord(LowerChar(c)) == IsWord(c)
  {
  }

  lemma SpaceIsCaseless(c: char)
    ensures IsSpace(c) ==> UpperChar(c) == c && LowerChar(c) == c
  {
  }

  lemma WordIsNotSpace(c: char)
    ensures IsWord(c) ==> !IsSpace(c)
  {
  }

  /** Inside a matched run the reference definition upper-cases the first character and lower-cases the rest. */
  lemma MatchedRunChar(s: string, j: nat, e: nat, k: nat)
    requires j <= k < e <= |s|
    requires j == 0 || IsSpace(s[j - 1])
    requires IsWord(s[j])
    requires forall m {:trigger IsSpace(s[m])} :: j <= m < e ==> !IsSpace(s[m])
    ensures TitleChar(s, k) == if k == j then UpperChar(s[k]) else LowerChar(s[k])
  {
    RunStartIs(s, j, k);
  }

  /**
   * One match of the global replace, its first group starting at `p` and its
   * word character at `j` (`p == j` for `^\w`, `p == j - 1` for `\s\w`), agrees
   * with the reference definition on the matched positions.
   */
  lemma MatchedPart(s: string, p: nat, j: nat, k: nat)
    requires j < |s| && ((p == j == 0) || (p + 1 == j && IsSpace(s[p])))
    requires IsWord(s[j])
    requires p <= k < RunEnd(s, j + 1)
    ensures (Upper(s[p..j + 1]) + Lower(s[j + 1..RunEnd(s, j + 1)]))[k - p] == TitleChar(s, k)
  {
    var e := RunEnd(s, j + 1);
    var a, b := Upper(s[p..j + 1]), Lower(s[j + 1..e]);
    UpperAt(s[p..j + 1]);
    LowerAt(s[j + 1..e]);
    WordIsNotSpace(s[j]);
    if k < j {
      SpaceIsCaseless(s[k]);
      assert (a + b)[k - p] == a[0] == UpperChar(s[k]) == s[k];
      assert TitleChar(s, k) == s[k];
    } else if k == j {
      MatchedRunChar(s, j, e, k);
      assert (a + b)[k - p] == a[k - p];
    } else {
      MatchedRunChar(s, j, e, k);
      assert (a + b)[k - p] == b[k - j - 1];
    }
  }

  /** The positions a step covers come from what the step emits. */
  lemma StepPart(s: string, i: nat, k: nat)
    requires i < |s| && i <= k < TitleStep(s, i).1
    ensures TitleFrom(s, i)[k - i] == TitleStep(s, i).0[k - i]
  {
    var step := TitleStep(s, i);
    var rest := TitleFrom(s, step.1);
    assert TitleFrom(s, i) == step.0 + rest;
    assert (step.0 + rest)[k - i] == step.0[k - i];
  }

  /** The positions after a step come from the scan resumed where the step ends. */
  lemma StepRest(s: string, i: nat, k: nat)
    requires i < |s| && TitleStep(s, i).1 <= k < |s|
    ensures TitleFrom(s, i)[k - i] == TitleFrom(s, TitleStep(s, i).1)[k - TitleStep(s, i).1]
  {
    var step := TitleStep(s, i);
    var rest := TitleFrom(s, step.1);
    assert TitleFrom(s, i) == step.0 + rest;
    assert (step.0 + rest)[k - i] == rest[k - step.1];
  }

  /** Where a match starts, the step emits the matched part and ends with the run. */
  lemma MatchStep(s: string, p: nat, j: nat)
    requires j < |s| && ((p == j == 0) || (p + 1 == j && IsSpace(s[p])))
    requires IsWord(s[j])
    ensures TitleStep(s, p) == (Upper(s[p..j + 1]) + Lower(s[j + 1..RunEnd(s, j + 1)]), RunEnd(s, j + 1))
  {
    if p < j {
      WordIsNotSpace(s[p]);
    }
  }

  /** Where no match starts, the step copies one character. */
  lemma CopyStep(s: string, i: nat)
    requires i < |s|
    requires Copies(s, i)
    ensures TitleStep(s, i) == ([s[i]], i + 1)
  {
  }

  /** A copied position agrees with the reference definition. */
  lemma CopyHere(s: string, i: nat)
    requires i < |s| && ScanPoint(s, i)
    requires !(i == 0 && IsWord(s[0]))
    ensures s[i] == TitleChar(s, i)
  {
    if !IsSpace(s[i]) && i == 0 {
      assert RunStart(s, 0) == 0;
    }
  }

  /** After a copied position the scan is again at a point it can reach. */
  lemma CopyKeepsScanPoint(s: string, i: nat)
    requires i < |s| && ScanPoint(s, i)
    requires Copies(s, i)
    ensures ScanPoint(s, i + 1)
  {
    if i + 1 < |s| && !IsSpace(s[i + 1]) {
      if IsSpace(s[i]) {
        assert RunStart(s, i + 1) == i + 1;
      } else {
        assert RunStart(s, i + 1) == RunStart(s, i);
      }
    }
  }

  /** The characters one step emits agree with the reference definition. */
  lemma StepAgrees(s: string, i: nat, k: nat)
    requires i < |s| && ScanPoint(s, i)
    requires i <= k < TitleStep(s, i).1
    ensures TitleStep(s, i).0[k - i] == TitleChar(s, k)
  {
    if i == 0 && IsWord(s[0]) {
      MatchStep(s, 0, 0);
      MatchedPart(s, 0, 0, k);
    } else if IsSpace(s[i]) && i + 1 < |s| && IsWord(s[i + 1]) {
      MatchStep(s, i, i + 1);
      MatchedPart(s, i, i + 1, k);
    } else {
      CopyStep(s, i);
      CopyHere(s, i);
    }
  }

  /** Every step ends at a position the scan can reach. */
  lemma StepKeepsScanPoint(s: string, i: nat)
    requires i < |s| && ScanPoint(s, i)
    ensures ScanPoint(s, TitleStep(s, i).1)
  {
    if i == 0 && IsWord(s[0]) {
      MatchStep(s, 0, 0);
    } else if IsSpace(s[i]) && i + 1 < |s| && IsWord(s[i + 1]) {
      MatchStep(s, i, i + 1);
    } else {
      CopyStep(s, i);
      CopyKeepsScanPoint(s, i);
    }
  }

  /** The positions one step covers agree with the reference definition. */
  lemma StepCovers(s: string, i: nat)
    requires i < |s| && ScanPoint(s, i)
    ensures forall d :: 0 <= d < TitleStep(s, i).1 - i ==> TitleFrom(s, i)[d] == TitleChar(s, i + d)
  {
    forall d | 0 <= d < TitleStep(s, i).1 - i
      ensures TitleFrom(s, i)[d] == TitleChar(s, i + d)
    {
      StepPart(s, i, i + d);
      StepAgrees(s, i, i + d);
    }
  }

  /** The positions after one step come from the scan resumed where it ends. */
  lemma StepResumes(s: string, i: nat)
    requires i < |s|
    ensures forall d :: 0 <= d < |s| - TitleStep(s, i).1 ==>
      TitleFrom(s, i)[TitleStep(s, i).1 - i + d] == TitleFrom(s, TitleStep(s, i).1)[d]
  {
    var e := TitleStep(s, i).1;
    forall d | 0 <= d < |s| - e
      ensures TitleFrom(s, i)[e - i + d] == TitleFrom(s, e)[d]
    {
      StepRest(s, i, e + d);
    }
  }

  /**
   * One step from a reachable position: it ends at a reachable position `e`,
   * agrees with the reference definition up to `e`, and is followed by the scan
   * from `e`.
   */
  lemma StepSplit(s: string, i: nat) returns (e: nat)
    requires i < |s| && ScanPoint(s, i)
    ensures i < e <= |s| && ScanPoint(s, e)
    ensures forall d :: 0 <= d < e - i ==> TitleFrom(s, i)[d] == TitleChar(s, i + d)
    ensures forall d :: 0 <= d < |s| - e ==> TitleFrom(s, i)[e - i + d] == TitleFrom(s, e)[d]
  {
    e := TitleStep(s, i).1;
    StepKeepsScanPoint(s, i);
    StepCovers(s, i);
    StepResumes(s, i);
  }

  /** The scan from a reachable position agrees with the reference definition at every later position. */
  lemma {:induction false} TitleFromAt(s: string, i: nat, k: nat)
    requires i <= k < |s| && ScanPoint(s, i)
    ensures TitleFrom(s, i)[k - i] == TitleChar(s, k)
    decreases |s| - i
  {
    var e := StepSplit(s, i);
    if k < e {
      assert TitleFrom(s, i)[k - i] == TitleChar(s, i + (k - i));
    } else {
      TitleFromAt(s, e, k);
      assert TitleFrom(s, i)[e - i + (k - e)] == TitleFrom(s, e)[k - e];
    }
  }

  /** Title mode agrees with its one-character-at-a-time reference definition. */
  lemma TitleIsPointwise(s: string)
    ensures |Title(s)| == |s|
    ensures forall k :: 0 <= k < |s| ==> Title(s)[k] == TitleChar(s, k)
  {
    forall k | 0 <= k < |s|
      ensures Title(s)[k] == TitleChar(s, k)
    {
      TitleFromAt(s, 0, k);
    }
  }

  /** The properties of title mode, stated on the characters of the input. */
  lemma TitleProperties(s: string)
    ensures |Title(s)| == |s|
    ensures forall k :: 0 <= k < |s| ==> (IsSpace(s[k]) <==> IsSpace(Title(s)[k]))
    ensures forall k :: 0 <= k < |s| && IsSpace(s[k]) ==> Title(s)[k] == s[k]
    ensures forall k :: 0 <= k < |s| && IsWord(s[k]) && (k == 0 || IsSpace(s[k - 1])) ==>
      Title(s)[k] == UpperChar(s[k])
    ensures forall k :: 0 <= k < |s| && !IsSpace(s[k]) && IsWord(s[RunStart(s, k)]) && RunStart(s, k) < k ==>
      Title(s)[k] == LowerChar(s[k])
    ensures forall k :: 0 <= k < |s| && !IsWord(s[RunStart(s, k)]) ==> Title(s)[k] == s[k]
  {
    TitleIsPointwise(s);
    TitleKeepsClasses(s);
  }

  lemma TitleKeepsClasses(s: string)
    ensures |Title(s)| == |s|
    ensures forall k :: 0 <= k < |s| ==> IsSpace(Title(s)[k]) == IsSpace(s[k]) && IsWord(Title(s)[k]) == IsWord(s[k])
  {
    TitleIsPointwise(s);
    forall k | 0 <= k < |s|
      ensures IsSpace(Title(s)[k]) == IsSpace(s[k]) && IsWord(Title(s)[k]) == IsWord(s[k])
    {
      CaseMapKeepsClasses(s[k]);
    }
  }

  lemma {:induction false} RunStartAgrees(s: string, t: string, k: nat)
    requires |s| == |t| && k < |s|
    requires forall m :: 0 <= m < |s| ==> (IsSpace(s[m]) <==> IsSpace(t[m]))
    ensures RunStart(s, k) == RunStart(t, k)
  {
    if k > 0 && !IsSpace(s[k - 1]) {
      RunStartAgrees(s, t, k - 1);
    }
  }

  lemma TitleIdempotent(s: string)
    ensures Title(Title(s)) == Title(s)
  {
    var t := Title(s);
    TitleIsPointwise(s);
    TitleIsPointwise(t);
    TitleKeepsClasses(s);
    forall k | 0 <= k < |s|
      ensures t[k] == TitleChar(t, k)
    {
      RunStartAgrees(s, t, k);
    }
  }

  /** Applying a case mode twice is the same as applying it once. */
  lemma CaseIdempotent(text: string, format: string)
    ensures ChangeTextCapitalization(ChangeTextCapitalization(text, format), format)
         == ChangeTextCapitalization(text, format)
  {
    if format == UpperMode {
      UpperIdempotent(text);
    } else if format == LowerMode {
      LowerIdempotent(text);
    } else if format == FirstMode {
      if text != "" {
        var r := ChangeTextCapitalization(text, format);
        assert r[..1] == Upper(text[..1]);
        assert r[1..] == Lower(text[1..]);
        UpperIdempotent(text[..1]);
        LowerIdempotent(text[1..]);
      }
    } else if format == TitleMode {
      TitleIdempotent(text);
    }
  }

  /** The first match of the example: `^\w` at "hello". */
  lemma HelloStep(s: string)
    requires s == "hello world"
    ensures TitleStep(s, 0) == ("Hello", 5)
  {
    assert RunEnd(s, 1) == 5 by {
      assert IsSpace(s[5]);
      assert forall k :: 1 <= k < 5 ==> !IsSpace(s[k]);
    }
    MatchStep(s, 0, 0);
    assert s[0..1] == "h" && s[1..5] == "ello";
    assert Upper("h") + Lower("ello") == "Hello";
  }

  /** The second match of the example: `\s\w` at " world". */
  lemma WorldStep(s: string)
    requires s == "hello world"
    ensures TitleStep(s, 5) == (" World", 11)
  {
    assert RunEnd(s, 7) == 11 by {
      assert forall k :: 7 <= k < 11 ==> !IsSpace(s[k]);
    }
    MatchStep(s, 5, 6);
    assert s[5..7] == " w" && s[7..11] == "orld";
    assert Upper(" w") + Lower("orld") == " World";
  }

  lemma TitleExample(s: string)
    requires s == "hello world"
    ensures Title(s) == "Hello World"
  {
    HelloStep(s);
    WorldStep(s);
    assert TitleFrom(s, 5) == " World";
  }

  // ---------------------------------------------------------------------------
  // Lemmas: full-name composition

  lemma {:induction false} ReplaceAllConcat(a: string, b: string, target: char, replacement: string)
    ensures ReplaceAll(a + b, target, replacement) == ReplaceAll(a, target, replacement) + ReplaceAll(b, target, replacement)
  {
    if a == [] {
      assert a + b == b;
    } else {
      var head := if a[0] == target then replacement else [a[0]];
      assert (a + b)[0] == a[0];
      assert (a + b)[1..] == a[1..] + b;
      ReplaceAllConcat(a[1..], b, target, replacement);
      calc {
        ReplaceAll(a + b, target, replacement);
        head + ReplaceAll(a[1..] + b, target, replacement);
        head + (ReplaceAll(a[1..], target, replacement) + ReplaceAll(b, target, replacement));
        (head + ReplaceAll(a[1..], target, replacement)) + ReplaceAll(b, target, replacement);
      }
    }
  }

  /** A string without the target letter is left as it is; in particular `F`, `M`, `L` are never replaced. */
  lemma {:induction false} ReplaceAllAbsent(s: string, target: char, replacement: string)
    requires target !in s
    ensures ReplaceAll(s, target, replacement) == s
  {
    if s != [] {
      assert s == [s[0]] + s[1..];
      ReplaceAllAbsent(s[1..], target, replacement);
    }
  }

  /** Every character of the result comes from the input or from the replacement, and the target is gone when the replacement lacks it. */
  lemma {:induction false} ReplaceAllChars(s: string, target: char, replacement: string)
    ensures forall c :: c in ReplaceAll(s, target, replacement) ==> (c in s && c != target) || c in replacement
  {
    if s != [] {
      ReplaceAllChars(s[1..], target, replacement);
    }
  }

  /** One replacement step applied to a single character of the pattern. */
  lemma ReplaceAllChar(c: char, target: char, replacement: string)
    ensures ReplaceAll([c], target, replacement) == if c == target then replacement else [c]
  {
    assert [c][1..] == [];
  }

  /**
   * When no substituted part contains a letter that a later step replaces, the
   * three sequential replacements equal the one-pass substitution.
   */
  lemma SequentialIsOnePass(pattern: string, first: string, middle: string, last: string)
    requires 'm' !in first && 'l' !in first && 'l' !in middle
    ensures SubstituteNames(pattern, first, middle, last) == SubstituteOnce(pattern, first, middle, last)
  {
    SequentialChain(pattern, first, middle, last);
    ReplaceAllAbsent(first, 'm', middle);
    ReplaceAllAbsent(first, 'l', last);
    ReplaceAllAbsent(middle, 'l', last);
  }

  /**
   * The three sequential replacements are a one-pass substitution of rewritten
   * parts: the substituted first name goes through the middle- and last-name
   * steps, the substituted middle name through the last-name step, and the last
   * name through none.
   */
  lemma {:induction false} SequentialChain(pattern: string, first: string, middle: string, last: string)
    ensures SubstituteNames(pattern, first, middle, last)
      == SubstituteOnce(pattern, ReplaceAll(ReplaceAll(first, 'm', middle), 'l', last), ReplaceAll(middle, 'l', last), last)
  {
    if pattern != [] {
      var c := pattern[0];
      var rest := pattern[1..];
      assert pattern == [c] + rest;
      // the first character after the first and the second step
      var x := if c == 'f' then first else [c];
      ReplaceAllConcat([c], rest, 'f', first);
      ReplaceAllChar(c, 'f', first);
      var fr := ReplaceAll(rest, 'f', first);
      ReplaceAllConcat(x, fr, 'm', middle);
      if c != 'f' { ReplaceAllChar(c, 'm', middle); }
      var y := ReplaceAll(x, 'm', middle);
      var mr := ReplaceAll(fr, 'm', middle);
      ReplaceAllConcat(y, mr, 'l', last);
      if c != 'f' && c != 'm' { ReplaceAllChar(c, 'l', last); }
      SequentialChain(rest, first, middle, last);
    }
  }

  /**
   * The substituted middle name is rewritten by the last-name step; so when it
   * contains an `l` that the last name does not, the sequential result differs
   * from the one-pass substitution.
   */
  lemma MiddleNameRewritten(first: string, middle: string, last: string)
    ensures SubstituteNames("m", first, middle, last) == ReplaceAll(middle, 'l', last)
    ensures 'l' in middle && 'l' !in last ==>
      SubstituteNames("m", first, middle, last) != SubstituteOnce("m", first, middle, last)
  {
    var f2, m2 := ReplaceAll(ReplaceAll(first, 'm', middle), 'l', last), ReplaceAll(middle, 'l', last);
    SequentialChain("m", first, middle, last);
    assert SubstituteOnce("m", f2, m2, last) == m2 + SubstituteOnce([], f2, m2, last);
    assert SubstituteOnce("m", first, middle, last) == middle + SubstituteOnce([], first, middle, last);
    ReplaceAllChars(middle, 'l', last);
  }

  /** A pattern without the lower-case placeholder letters only has its case changed; `F`, `M`, `L` are not placeholders. */
  lemma NoPlaceholders(spec: FullNameSpec)
    requires 'f' !in spec.format.pattern && 'm' !in spec.format.pattern && 'l' !in spec.format.pattern
    ensures ComposeFullName(spec) == ChangeTextCapitalization(spec.format.pattern, spec.format.textCase)
  {
    var p := spec.format.pattern;
    ReplaceAllAbsent(p, 'f', spec.firstName);
    ReplaceAllAbsent(p, 'm', spec.middleName);
    ReplaceAllAbsent(p, 'l', spec.lastName);
  }

  lemma ReplaceOne(a: string, b: string, target: char, replacement: string)
    requires target !in a && target !in b
    ensures ReplaceAll(a + [target] + b, target, replacement) == a + replacement + b
  {
    ReplaceAllConcat(a + [target], b, target, replacement);
    ReplaceAllConcat(a, [target], target, replacement);
    ReplaceAllChar(target, target, replacement);
    ReplaceAllAbsent(a, target, replacement);
    ReplaceAllAbsent(b, target, replacement);
  }

  /**
   * The substituted first name is rewritten by the middle- and last-name steps;
   * so when it contains an `m` that neither later part contains, the sequential
   * result differs from the one-pass substitution.
   */
  lemma FirstNameRewritten(first: string, middle: string, last: string)
    ensures SubstituteNames("f", first, middle, last) == ReplaceAll(ReplaceAll(first, 'm', middle), 'l', last)
    ensures 'm' in first && 'm' !in middle && 'm' !in last ==>
      SubstituteNames("f", first, middle, last) != SubstituteOnce("f", first, middle, last)
  {
    ReplaceAllChar('f', 'f', first);
    assert SubstituteOnce("f", first, middle, last) == first + SubstituteOnce([], first, middle, last);
    var m := ReplaceAll(first, 'm', middle);
    ReplaceAllChars(first, 'm', middle);
    ReplaceAllChars(m, 'l', last);
  }

  /** The pattern `f l` with the first name `Emily`: its `m` and `l` are rewritten by the later steps. */
  lemma SequentialRewritesExample(pattern: string, first: string, middle: string, last: string)
    requires pattern == "f l" && first == "Emily" && middle == "Ann" && last == "Lee"
    ensures SubstituteNames(pattern, first, middle, last) == "EAnniLeey Lee"
    ensures SubstituteOnce(pattern, first, middle, last) == "Emily Lee"
  {
    var x1 := ReplaceAll(pattern, 'f', first);
    assert x1 == "Emily l" by {
      assert pattern == [] + ['f'] + " l";
      ReplaceOne([], " l", 'f', first);
    }
    var x2 := ReplaceAll(x1, 'm', middle);
    assert x2 == "EAnnily l" by {
      assert x1 == "E" + ['m'] + "ily l";
      ReplaceOne("E", "ily l", 'm', middle);
    }
    assert ReplaceAll(x2, 'l', last) == "EAnniLeey Lee" by {
      assert x2 == ("EAnni" + ['l'] + "y ") + ['l'];
      ReplaceAllConcat("EAnni" + ['l'] + "y ", ['l'], 'l', last);
      ReplaceOne("EAnni", "y ", 'l', last);
      ReplaceAllChar('l', 'l', last);
    }
    SequentialOnePassChars(pattern, first, middle, last);
  }

  /** The one-pass substitution of `f l`. */
  lemma SequentialOnePassChars(pattern: string, first: string, middle: string, last: string)
    requires pattern == "f l"
    ensures SubstituteOnce(pattern, first, middle, last) == first + " " + last
  {
    var p1, p2 := pattern[1..], pattern[2..];
    assert p1[0] == ' ' && p1[1..] == p2;
    assert p2[0] == 'l' && p2[1..] == [];
    assert SubstituteOnce(p2, first, middle, last) == last + SubstituteOnce([], first, middle, last);
    assert SubstituteOnce(p1, first, middle, last) == " " + SubstituteOnce(p2, first, middle, last);
  }

  /** The example full name: pattern `f l`, first name `Jane`, last name `Doe`, upper case. */
  lemma FullNameExample(pattern: string, first: string, middle: string, last: string, textCase: string)
    requires pattern == "f l" && first == "Jane" && middle == "" && last == "Doe" && textCase == UpperMode
    ensures ComposeFullName(FullNameSpec(first, middle, last, NameFormat(pattern, textCase))) == "JANE DOE"
  {
    var x1 := ReplaceAll(pattern, 'f', first);
    assert x1 == "Jane l" by {
      assert pattern == [] + ['f'] + " l";
      ReplaceOne([], " l", 'f', first);
    }
    var x2 := ReplaceAll(x1, 'm', middle);
    assert x2 == x1 by {
      ReplaceAllAbsent(x1, 'm', middle);
    }
    var x3 := ReplaceAll(x2, 'l', last);
    assert x3 == "Jane Doe" by {
      assert x2 == "Jane " + ['l'] + [];
      ReplaceOne("Jane ", [], 'l', last);
    }
    var r := Upper(x3);
    UpperAt(x3);
    assert r[0] == 'J' && r[1] == 'A' && r[2] == 'N' && r[3] == 'E';
    assert r[4] == ' ' && r[5] == 'D' && r[6] == 'O' && r[7] == 'E';
  }
}
