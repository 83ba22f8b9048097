/**
 * The static quality heuristics applied to a submission's source text:
 * cyclomatic complexity, lines of code, readability, naming, structure,
 * documentation and style scores, and the feedback sentences built from them.
 *
 * Regular-expression matching is abstract: a `RegexEngine` maps a pattern (the
 * analyzer's own pattern strings, kept verbatim) and an input to the list of
 * matches. The checks whose patterns are plain character tests (nesting depth,
 * lines of code, spacing, duplication) are modelled concretely.
 */
module Quality {
  import opened Wrappers
  import opened Text
  import opened Rounding
  import opened Models

  /** A pattern together with the `RegexOptions` the analyzer passes. */
  datatype Regex = Regex(pattern: string, ignoreCase: bool, singleline: bool)

  /** One match: its whole text and the text of capture group 1. */
  datatype RegexMatch = RegexMatch(value: string, group1: string)

  /** `Regex.Matches(input, pattern, options)`. */
  datatype RegexEngine = RegexEngine(matches: (Regex, string) -> seq<RegexMatch>)

  function Plain(pattern: string): Regex {
    Regex(pattern, false, false)
  }

  function MatchCount(rx: RegexEngine, re: Regex, code: string): nat {
    |rx.matches(re, code)|
  }

  /** Total number of matches of several patterns (the `Sum` over a pattern array). */
  function SumMatches(rx: RegexEngine, patterns: seq<string>, code: string): nat {
    if patterns == [] then 0
    else MatchCount(rx, Plain(patterns[0]), code) + SumMatches(rx, patterns[1..], code)
  }

  // ---------------------------------------------------------------------------
  // Language tables (selected on the ASCII-lower-cased language name)
  // ---------------------------------------------------------------------------

  function VariablePattern(language: string): string {
    var l := ToLowerAscii(language);
    if l == "csharp" then @"\b[a-z][a-zA-Z0-9]*\s+([a-zA-Z][a-zA-Z0-9]*)\b"
    else if l == "python" then @"\b([a-z][a-z0-9_]*)\s*="
    else if l == "java" then @"\b[a-zA-Z]+\s+([a-z][a-zA-Z0-9]*)\b"
    else @"\b([a-zA-Z][a-zA-Z0-9]*)\b"
  }

  function MethodPatterns(language: string): seq<string> {
    var l := ToLowerAscii(language);
    if l == "csharp" then [@"\b(public|private|protected|internal).*\s+\w+\s*\([^)]*\)\s*\{"]
    else if l == "python" then [@"def\s+\w+\s*\([^)]*\):"]
    else if l == "java" then [@"\b(public|private|protected).*\s+\w+\s*\([^)]*\)\s*\{"]
    else if l == "javascript" then [@"function\s+\w+\s*\([^)]*\)", @"\w+\s*=\s*\([^)]*\)\s*=>"]
    else [@"function\s+\w+\s*\([^)]*\)"]
  }

  function ClassPatterns(language: string): seq<string> {
    var l := ToLowerAscii(language);
    if l == "csharp" || l == "java" then [@"\bclass\s+\w+"]
    else if l == "python" then [@"class\s+\w+.*:"]
    else [@"class\s+\w+"]
  }

  function DocumentedMethodPatterns(language: string): seq<string> {
    var l := ToLowerAscii(language);
    if l == "csharp" then [@"///.*\n.*\b(public|private|protected).*\s+\w+\s*\("]
    else if l == "python" then [@"def\s+\w+\s*\([^)]*\):\s*\n\s*"""]
    else if l == "java" then [@"/\*\*.*?\*/.*\b(public|private|protected).*\s+\w+\s*\("]
    else [@"//.*\n.*function\s+\w+"]
  }

  function DocumentedClassPatterns(language: string): seq<string> {
    var l := ToLowerAscii(language);
    if l == "csharp" then [@"///.*\n.*\bclass\s+\w+"]
    else if l == "python" then [@"class\s+\w+.*:\s*\n\s*"""]
    else if l == "java" then [@"/\*\*.*?\*/.*\bclass\s+\w+"]
    else [@"//.*\n.*class\s+\w+"]
  }

  /** The style rules' patterns: brace at end of line and trailing whitespace (C#), tabs and trailing whitespace (Python), trailing whitespace otherwise. */
  function StyleRulePatterns(language: string): seq<string> {
    var l := ToLowerAscii(language);
    if l == "csharp" then [@"\{\s*\n", @"\s+$"]
    else if l == "python" then [@"\t", @"\s+$"]
    else [@"\s+$"]
  }

  const SingleLetterPattern: string := @"\b[a-z]\b(?!\s*=\s*\d)"

  /** The look-ahead appended to each method pattern when whole method bodies are extracted. */
  const MethodBodySuffix: string := @".*?(?=\n\s*(?:public|private|protected|class|\Z))"

  function CountMethods(rx: RegexEngine, code: string, language: string): nat {
    SumMatches(rx, MethodPatterns(language), code)
  }

  function CountClasses(rx: RegexEngine, code: string, language: string): nat {
    SumMatches(rx, ClassPatterns(language), code)
  }

  function CountStyleViolations(rx: RegexEngine, code: string, language: string): nat {
    SumMatches(rx, StyleRulePatterns(language), code)
  }

  /** The texts of the method bodies found by the single-line method patterns, pattern by pattern. */
  function ExtractMethods(rx: RegexEngine, code: string, patterns: seq<string>): seq<string> {
    if patterns == [] then []
    else
      var ms := rx.matches(Regex(patterns[0] + MethodBodySuffix, false, true), code);
      seq(|ms|, i requires 0 <= i < |ms| => ms[i].value) + ExtractMethods(rx, code, patterns[1..])
  }

  // ---------------------------------------------------------------------------
  // Cyclomatic complexity
  // ---------------------------------------------------------------------------

  /** The complexity keywords other than "||", in the analyzer's order; "||" comes last. */
  const WordKeywords: seq<string> := ["if", "else", "while", "for", "foreach", "switch", "case", "catch", "&&"]

  const ComplexityKeywords: seq<string> := WordKeywords + ["||"]

  /** The case-insensitive whole-word pattern built for a keyword. */
  function KeywordRegex(keyword: string): Regex {
    Regex(@"\b" + keyword + @"\b", true, false)
  }

  /** Matches of the whole-word patterns of the given keywords. */
  function KeywordSum(rx: RegexEngine, code: string, keywords: seq<string>): nat {
    if keywords == [] then 0
    else MatchCount(rx, KeywordRegex(keywords[0]), code) + KeywordSum(rx, code, keywords[1..])
  }

  /**
   * `CalculateComplexity` as written: 1 plus the matches of every keyword pattern.
   * For "||" the pattern is `\b||\b`, an alternation whose middle branch is empty:
   * it matches the empty string at every one of the |code| + 1 positions of the input.
   */
  function ComplexityAsWritten(rx: RegexEngine, code: string): (r: int)
    ensures r >= |code| + 2
  {
    1 + KeywordSum(rx, code, WordKeywords) + (|code| + 1)
  }

  /** Non-overlapping occurrences of the operator "||", scanning left to right. */
  function OrOperatorCount(code: string): (r: nat)
    ensures 2 * r <= |code|
    ensures '|' !in code ==> r == 0
  {
    if |code| < 2 then 0
    else if code[0] == '|' && code[1] == '|' then 1 + OrOperatorCount(code[2..])
    else OrOperatorCount(code[1..])
  }

  /** Cyclomatic complexity: 1 plus the keyword matches, with "||" counted as the operator it stands for. */
  function Complexity(rx: RegexEngine, code: string): (r: int)
    ensures r >= 1
  {
    1 + KeywordSum(rx, code, WordKeywords) + OrOperatorCount(code)
  }

  /** An operator count that reads "||" literally: an occurrence at the front is counted and skipped. */
  lemma OrOperatorCountCounts(a: string, b: string)
    requires '|' !in a
    ensures OrOperatorCount(a + "||" + b) == 1 + OrOperatorCount(b)
    decreases |a|
  {
    if a != [] {
      assert (a + "||" + b)[1..] == a[1..] + "||" + b;
      OrOperatorCountCounts(a[1..], b);
    } else {
      assert a + "||" + b == "||" + b;
      assert ("||" + b)[2..] == b;
    }
  }

  /**
   * The two complexity definitions differ exactly in the "||" term: the pattern as
   * written contributes |code| + 1, the operator count contributes its occurrences,
   * at most half the length of the code.
   */
  lemma ComplexityAsWrittenOvercounts(rx: RegexEngine, code: string)
    ensures ComplexityAsWritten(rx, code) == Complexity(rx, code) + |code| + 1 - OrOperatorCount(code)
    ensures ComplexityAsWritten(rx, code) > Complexity(rx, code) + |code| / 2
  {
  }

  /**
   * As written, every input of nine or more characters is reported as complex
   * (complexity above 10), whatever the engine finds: "int x = 1;" has no branch
   * at all, yet its complexity is at least 12, where the operator count gives 1.
   */
  lemma ComplexityAsWrittenFlagsStraightLineCode(rx: RegexEngine, code: string)
    requires |code| >= 9
    requires forall re: Regex :: rx.matches(re, "int x = 1;") == []
    ensures ComplexityAsWritten(rx, code) > 10
    ensures ComplexityAsWritten(rx, "int x = 1;") == 12
    ensures Complexity(rx, "int x = 1;") == 1
  {
    var straight := "int x = 1;";
    NoKeywordMatches(rx, straight, WordKeywords);
    assert |straight| == 10;
    assert '|' !in straight;
  }

  /** With the operator counted, code without "|" on which no keyword pattern matches has complexity 1. */
  lemma ComplexityOfStraightLineCode(rx: RegexEngine, code: string)
    requires '|' !in code
    requires forall re: Regex :: rx.matches(re, code) == []
    ensures Complexity(rx, code) == 1
  {
    NoKeywordMatches(rx, code, WordKeywords);
  }

  lemma {:induction false} NoKeywordMatches(rx: RegexEngine, code: string, keywords: seq<string>)
    requires forall re: Regex :: rx.matches(re, code) == []
    ensures KeywordSum(rx, code, keywords) == 0
  {
    if keywords != [] {
      NoKeywordMatches(rx, code, keywords[1..]);
    }
  }

  // ---------------------------------------------------------------------------
  // Lines
  // ---------------------------------------------------------------------------

  /** `StringSplitOptions.RemoveEmptyEntries`: the non-empty segments, in order. */
  function RemoveEmpty(xs: seq<string>): (r: seq<string>)
    ensures |r| <= |xs|
    ensures forall i :: 0 <= i < |r| ==> r[i] != [] && r[i] in xs
  {
    if xs == [] then []
    else
      var rest := RemoveEmpty(xs[1..]);
      if xs[0] == [] then rest else [xs[0]] + rest
  }

  lemma {:induction false} RemoveEmptyAppend(a: seq<string>, b: seq<string>)
    ensures RemoveEmpty(a + b) == RemoveEmpty(a) + RemoveEmpty(b)
  {
    if a == [] {
      assert a + b == b;
    } else {
      var ab := a + b;
      assert ab[0] == a[0] && ab[1..] == a[1..] + b;
      RemoveEmptyAppend(a[1..], b);
      if a[0] != [] {
        assert [a[0]] + (RemoveEmpty(a[1..]) + RemoveEmpty(b)) == [a[0]] + RemoveEmpty(a[1..]) + RemoveEmpty(b);
      }
    }
  }

  /** `code.Split('\n', StringSplitOptions.RemoveEmptyEntries)`. */
  function NonEmptyLines(code: string): seq<string> {
    RemoveEmpty(Split(code, '\n'))
  }

  /** A line that counts as code: not blank once trimmed, and not a `//` comment. */
  predicate IsCodeLine(line: string) {
    Trim(line) != [] && !StartsWith(Trim(line), "//")
  }

  function CountCodeLines(lines: seq<string>): (r: nat)
    ensures r <= |lines|
  {
    if lines == [] then 0
    else (if IsCodeLine(lines[0]) then 1 else 0) + CountCodeLines(lines[1..])
  }

  lemma {:induction false} CountCodeLinesAppend(a: seq<string>, b: seq<string>)
    ensures CountCodeLines(a + b) == CountCodeLines(a) + CountCodeLines(b)
  {
    if a == [] {
      assert a + b == b;
    } else {
      var ab := a + b;
      assert ab[0] == a[0] && ab[1..] == a[1..] + b;
      assert CountCodeLines(ab) == (if IsCodeLine(a[0]) then 1 else 0) + CountCodeLines(a[1..] + b);
      CountCodeLinesAppend(a[1..], b);
    }
  }

  /** `CalculateLinesOfCode`: one for each newline-separated segment that is code. */
  function LinesOfCode(code: string): (r: nat)
    ensures r <= Count(code, '\n') + 1
  {
    CountCodeLines(NonEmptyLines(code))
  }

  /** Splitting `a + [c] + b` on `c` gives the segments of `a` followed by those of `b`. */
  lemma {:induction false} SplitConcat(a: string, b: string, c: char)
    ensures Split(a + [c] + b, c) == Split(a, c) + Split(b, c)
  {
    var s := a + [c] + b;
    if a == [] {
      assert s == [c] + b;
      assert s[1..] == b;
    } else {
      assert s[1..] == a[1..] + [c] + b;
      SplitConcat(a[1..], b, c);
      SplitCons(s, a, Split(b, c), c);
    }
  }

  /** Two strings with the same first character whose tails split alike up to a suffix `v` split alike up to `v`. */
  lemma SplitCons(s: string, a: string, v: seq<string>, c: char)
    requires s != [] && a != [] && s[0] == a[0]
    requires Split(s[1..], c) == Split(a[1..], c) + v
    ensures Split(s, c) == Split(a, c) + v
  {
    if a[0] != c {
      SplitConsOther(s, a, v, c);
    } else {
      var t, u := Split(s[1..], c), Split(a[1..], c);
      assert Split(s, c) == [[]] + t;
      assert Split(a, c) == [[]] + u;
      assert [[]] + t == [[]] + u + v;
    }
  }

  lemma SplitConsOther(s: string, a: string, v: seq<string>, c: char)
    requires s != [] && a != [] && s[0] == a[0] && a[0] != c
    requires Split(s[1..], c) == Split(a[1..], c) + v
    ensures Split(s, c) == Split(a, c) + v
  {
    var t, u := Split(s[1..], c), Split(a[1..], c);
    assert Split(s, c) == [[a[0]] + t[0]] + t[1..];
    assert Split(a, c) == [[a[0]] + u[0]] + u[1..];
    ExtendFirst([a[0]], t, u, v);
  }

  /** Prepending to the first segment commutes with appending further segments. */
  lemma ExtendFirst(x: string, t: seq<string>, u: seq<string>, v: seq<string>)
    requires |u| > 0 && t == u + v
    ensures [x + t[0]] + t[1..] == [x + u[0]] + u[1..] + v
  {
    assert t[0] == u[0];
    assert t[1..] == u[1..] + v;
  }

  /** Lines of code are additive over a newline: counting two pieces separately gives the same total. */
  lemma LinesOfCodeConcat(a: string, b: string)
    ensures LinesOfCode(a + "\n" + b) == LinesOfCode(a) + LinesOfCode(b)
  {
    SplitConcat(a, b, '\n');
    RemoveEmptyAppend(Split(a, '\n'), Split(b, '\n'));
    CountCodeLinesAppend(NonEmptyLines(a), NonEmptyLines(b));
  }

  // ---------------------------------------------------------------------------
  // Nesting depth
  // ---------------------------------------------------------------------------

  predicate IsOpener(c: char) { c == '{' || c == '(' || c == '[' }
  predicate IsCloser(c: char) { c == '}' || c == ')' || c == ']' }

  /** Openers minus closers in `s`: the running depth after scanning `s` (it can go negative). */
  function Depth(s: string): int {
    if s == [] then 0
    else Depth(s[..|s| - 1]) + (if IsOpener(s[|s| - 1]) then 1 else if IsCloser(s[|s| - 1]) then -1 else 0)
  }

  /** The largest running depth over all prefixes of `s`, the empty prefix included. */
  function MaxDepth(s: string): (r: int)
    ensures r >= 0 && r >= Depth(s)
  {
    if s == [] then 0 else Max(MaxDepth(s[..|s| - 1]), Depth(s))
  }

  /** `MaxDepth` is an upper bound of the depth of every prefix, and it is attained by one. */
  lemma {:induction false} MaxDepthIsMaximum(s: string)
    ensures forall k :: 0 <= k <= |s| ==> Depth(s[..k]) <= MaxDepth(s)
    ensures exists k :: 0 <= k <= |s| && Depth(s[..k]) == MaxDepth(s)
  {
    if s == [] {
      assert Depth(s[..0]) == 0;
    } else {
      var p := s[..|s| - 1];
      MaxDepthIsMaximum(p);
      forall k | 0 <= k <= |s| ensures Depth(s[..k]) <= MaxDepth(s) {
        if k < |s| {
          assert s[..k] == p[..k];
        } else {
          assert s[..k] == s;
        }
      }
      if MaxDepth(p) >= Depth(s) {
        var k :| 0 <= k <= |p| && Depth(p[..k]) == MaxDepth(p);
        assert s[..k] == p[..k];
      } else {
        assert s[..|s|] == s;
      }
    }
  }

  /** The maximum depth never exceeds the number of opening brackets. */
  lemma {:induction false} MaxDepthAtMostOpeners(s: string)
    ensures MaxDepth(s) <= Openers(s)
    ensures Depth(s) <= Openers(s)
  {
    if s != [] {
      MaxDepthAtMostOpeners(s[..|s| - 1]);
    }
  }

  function Openers(s: string): nat {
    if s == [] then 0 else Openers(s[..|s| - 1]) + (if IsOpener(s[|s| - 1]) then 1 else 0)
  }

  /** `CalculateMaxNestingDepth`: one pass keeping the running depth and the largest depth seen. */
  method CalculateMaxNestingDepth(code: string) returns (maxDepth: int)
    ensures maxDepth == MaxDepth(code)
  {
    maxDepth := 0;
    var currentDepth := 0;
    var i := 0;
    while i < |code|
      invariant 0 <= i <= |code|
      invariant currentDepth == Depth(code[..i])
      invariant maxDepth == MaxDepth(code[..i])
    {
      var c := code[i];
      assert code[..i + 1][..i] == code[..i];
      if IsOpener(c) {
        currentDepth := currentDepth + 1;
        maxDepth := Max(maxDepth, currentDepth);
      } else if IsCloser(c) {
        currentDepth := currentDepth - 1;
      }
      i := i + 1;
    }
    assert code[..i] == code;
  }

  // ---------------------------------------------------------------------------
  // Readability
  // ---------------------------------------------------------------------------

  function TotalLineLength(lines: seq<string>): nat {
    if lines == [] then 0 else |lines[0]| + TotalLineLength(lines[1..])
  }

  /** Deduction for the average line length (average over a non-empty list, compared exactly). */
  function LineLengthDeduction(lines: seq<string>): (d: int)
    requires |lines| > 0
    ensures d == 0 || d == 10 || d == 20
  {
    var total := TotalLineLength(lines);
    if total > 120 * |lines| then 20
    else if total > 80 * |lines| then 10
    else 0
  }

  predicate IsIndented(line: string) {
    StartsWith(line, " ") || StartsWith(line, "\t")
  }

  /** The leading whitespace of the first indented line of `code`, or four spaces when none is indented. */
  function IndentationPattern(code: string): string {
    FirstIndentation(Split(code, '\n'))
  }

  function FirstIndentation(lines: seq<string>): (r: string)
    ensures r == "    " || AllWhiteSpace(r)
  {
    if lines == [] then "    "
    else if IsIndented(lines[0]) then lines[0][..|lines[0]| - |TrimStart(lines[0])|]
    else FirstIndentation(lines[1..])
  }

  /** Every indented line starts with the pattern or is blank. */
  predicate IsConsistentIndentation(lines: seq<string>, pattern: string) {
    forall i :: 0 <= i < |lines| && IsIndented(lines[i]) ==>
      StartsWith(lines[i], pattern) || TrimStart(lines[i]) == []
  }

  predicate IsAsciiAlnum(c: char) {
    ('a' <= c <= 'z') || ('A' <= c <= 'Z') || ('0' <= c <= '9')
  }

  /** An alphanumeric character, then `sym`, then another alphanumeric character, starting at `i`. */
  predicate TightAround(code: string, i: int, sym: char)
    requires 0 <= i && i + 2 < |code|
  {
    IsAsciiAlnum(code[i]) && code[i + 1] == sym && IsAsciiAlnum(code[i + 2])
  }

  /** No `x(y`, `x{y` or `x+y` with alphanumeric neighbours anywhere in the code. */
  predicate HasProperSpacing(code: string) {
    forall i :: 0 <= i && i + 2 < |code| ==>
      !TightAround(code, i, '(') && !TightAround(code, i, '{') && !TightAround(code, i, '+')
  }

  function NestingDeduction(maxNesting: int): (d: int)
    ensures d == 0 || d == 10 || d == 15
  {
    if maxNesting > 4 then 15 else if maxNesting > 3 then 10 else 0
  }

  /**
   * `AnalyzeReadability`: 100 minus deductions for long lines, inconsistent indentation,
   * missing spacing and deep nesting. The average over no lines throws.
   */
  function Readability(code: string): (r: Result<int>)
    ensures r.Failure? <==> NonEmptyLines(code) == []
    ensures r.Success? ==> 40 <= r.value <= 100
  {
    var lines := NonEmptyLines(code);
    if lines == [] then Failure("Sequence contains no elements")
    else
      var score := 100
        - LineLengthDeduction(lines)
        - (if IsConsistentIndentation(lines, IndentationPattern(code)) then 0 else 15)
        - (if HasProperSpacing(code) then 0 else 10)
        - NestingDeduction(MaxDepth(code));
      Success(Max(0, score))
  }

  /** Readability fails exactly on code made of newlines only. */
  lemma {:induction false} ReadabilityFailsOnlyOnNewlines(code: string)
    ensures Readability(code).Failure? <==> forall i :: 0 <= i < |code| ==> code[i] == '\n'
  {
    NoNonEmptySegments(code);
  }

  lemma {:induction false} NoNonEmptySegments(code: string)
    ensures RemoveEmpty(Split(code, '\n')) == [] <==> forall i :: 0 <= i < |code| ==> code[i] == '\n'
  {
    if code != [] {
      NoNonEmptySegments(code[1..]);
      var t := Split(code[1..], '\n');
      if code[0] != '\n' {
        assert Split(code, '\n')[0] != [];
      } else {
        assert Split(code, '\n') == [[]] + t;
        assert RemoveEmpty([[]] + t) == RemoveEmpty(t);
      }
    }
  }

  // ---------------------------------------------------------------------------
  // Naming
  // ---------------------------------------------------------------------------

  const PlaceholderNames: seq<string> := ["temp", "tmp", "var", "obj", "item"]

  predicate AllDigits(s: string) {
    forall i :: 0 <= i < |s| ==> '0' <= s[i] <= '9'
  }

  /** `IsGoodVariableName`: longer than two characters, not all digits, not a placeholder. */
  predicate IsGoodVariableName(name: string) {
    |name| > 2 && !AllDigits(name) && ToLowerAscii(name) !in PlaceholderNames
  }

  function CountGoodNames(ms: seq<RegexMatch>): (r: nat)
    ensures r <= |ms|
  {
    if ms == [] then 0
    else (if IsGoodVariableName(ms[0].group1) then 1 else 0) + CountGoodNames(ms[1..])
  }

  /**
   * `AnalyzeNaming`: 100 scaled by the share of good captured names (truncated), minus
   * five per single-letter identifier, floored at 0.
   */
  function Naming(rx: RegexEngine, code: string, language: string): (r: int)
    ensures 0 <= r <= 100
    ensures MatchCount(rx, Plain(SingleLetterPattern), code) >= 20 ==> r == 0
  {
    var vars := rx.matches(Plain(VariablePattern(language)), code);
    var good := CountGoodNames(vars);
    var base := if |vars| > 0 then PercentShareBound(good, |vars|); (100 * good) / |vars| else 100;
    Max(0, base - 5 * MatchCount(rx, Plain(SingleLetterPattern), code))
  }

  // ---------------------------------------------------------------------------
  // Structure
  // ---------------------------------------------------------------------------

  function MethodLengthDeduction(methods: seq<string>): (d: nat)
    ensures d <= 15 * |methods|
  {
    if methods == [] then 0
    else
      var lineCount := Count(methods[0], '\n') + 1;
      (if lineCount > 50 then 15 else if lineCount > 30 then 10 else 0) + MethodLengthDeduction(methods[1..])
  }

  /** The trimmed, non-empty lines of the code. */
  function TrimmedLines(lines: seq<string>): (r: seq<string>)
    ensures forall i :: 0 <= i < |r| ==> r[i] != []
  {
    if lines == [] then []
    else
      var line, rest := Trim(lines[0]), TrimmedLines(lines[1..]);
      if line == [] then rest else [line] + rest
  }

  /** Trimmed lines longer than ten characters that occur more than once. */
  function DuplicatedLines(lines: seq<string>): set<string> {
    set l | l in lines && |l| > 10 && multiset(lines)[l] > 1
  }

  /** `HasCodeDuplication`: more than two distinct long lines are repeated. */
  predicate HasCodeDuplication(code: string) {
    |DuplicatedLines(TrimmedLines(Split(code, '\n')))| > 2
  }

  /** Duplication needs at least six non-blank lines: three distinct lines, each twice. */
  lemma DuplicationNeedsSixLines(code: string)
    requires HasCodeDuplication(code)
    ensures |TrimmedLines(Split(code, '\n'))| >= 6
  {
    var lines := TrimmedLines(Split(code, '\n'));
    var d := DuplicatedLines(lines);
    var x :| x in d;
    var d1 := d - {x};
    assert |d1| == |d| - 1;
    var y :| y in d1;
    var d2 := d1 - {y};
    assert |d2| == |d1| - 1;
    var z :| z in d2;
    assert x in d && y in d && z in d;
    assert multiset(lines)[x] > 1 && multiset(lines)[y] > 1 && multiset(lines)[z] > 1;
    ThreeRepeatedElements(lines, x, y, z);
  }

  /** A sequence in which three distinct values each occur twice has at least six elements. */
  lemma ThreeRepeatedElements(lines: seq<string>, x: string, y: string, z: string)
    requires x != y && y != z && x != z
    requires multiset(lines)[x] > 1 && multiset(lines)[y] > 1 && multiset(lines)[z] > 1
    ensures |lines| >= 6
  {
    var m := multiset(lines);
    var pairs := multiset{x, x, y, y, z, z};
    assert pairs <= m;
    assert m == pairs + (m - pairs);
    assert |m| == |lines|;
  }

  /** The deduction for more than ten methods per class, by integer division. */
  function ClassDeduction(methodCount: int, classCount: int): (d: int)
    ensures d == 0 || d == 20
    ensures classCount <= 0 ==> d == 0
  {
    if classCount > 0 && methodCount / classCount > 10 then 20 else 0
  }

  /** `AnalyzeStructure`: deductions for long methods, too many methods per class and duplicated lines. */
  function Structure(rx: RegexEngine, code: string, language: string): (r: int)
    ensures 0 <= r <= 100
    ensures HasCodeDuplication(code) ==> r <= 85
  {
    var methods := ExtractMethods(rx, code, MethodPatterns(language));
    var classCount := CountClasses(rx, code, language);
    var methodCount := CountMethods(rx, code, language);
    var score := 100
      - MethodLengthDeduction(methods)
      - ClassDeduction(methodCount, classCount)
      - (if HasCodeDuplication(code) then 15 else 0);
    Max(0, score)
  }

  // ---------------------------------------------------------------------------
  // Documentation and style
  // ---------------------------------------------------------------------------

  /**
   * `AnalyzeDocumentation`: the rounded percentage of documented methods and classes,
   * each documented count capped at its total; 100 when there is nothing to document.
   */
  function Documentation(rx: RegexEngine, code: string, language: string): (r: int)
    ensures 0 <= r <= 100
    ensures CountMethods(rx, code, language) + CountClasses(rx, code, language) == 0 ==> r == 100
  {
    var totalMethods := CountMethods(rx, code, language);
    var totalClasses := CountClasses(rx, code, language);
    if totalMethods + totalClasses == 0 then 100
    else
      var documentedMethods := SumMatches(rx, DocumentedMethodPatterns(language), code);
      var documentedClasses := SumMatches(rx, DocumentedClassPatterns(language), code);
      var total := totalMethods + totalClasses;
      var documented := Min(documentedMethods, totalMethods) + Min(documentedClasses, totalClasses);
      var share := documented as real / total as real * 100.0;
      assert 0.0 <= share <= 100.0 by {
        RatioBound(documented as real, total as real);
      }
      RoundWithin(share, 0, 100);
      RoundHalfEven(share)
  }

  /** `AnalyzeStyle`: two points off per violation, floored at 0. */
  function Style(violations: nat): (r: int)
    ensures 0 <= r <= 100
    ensures r == 100 <==> violations == 0
    ensures r == 0 <==> violations >= 50
  {
    Max(0, 100 - violations * 2)
  }

  /**
   * `CalculateMaintainabilityIndex` after its logarithmic formula: the value is
   * clamped to [0, 100] and truncated to an integer.
   */
  function MaintainabilityIndex(raw: real): (r: int)
    ensures 0 <= r <= 100
    ensures 0.0 <= raw <= 100.0 ==> r as real <= raw < r as real + 1.0
  {
    var clamped := if raw < 0.0 then 0.0 else if raw > 100.0 then 100.0 else raw;
    clamped.Floor
  }

  /**
   * The value `CalculateMaintainabilityIndex` clamps: 171 - 5.2 ln(lines) - 0.23 complexity,
   * where `ln` stands for `Math.Log`. Without code lines the logarithm is negative
   * infinity, the value is unbounded and the index saturates at 100.
   */
  function MaintainabilityRaw(lines: nat, ln: nat -> real, complexity: int): real {
    if lines == 0 then 100.0 else 171.0 - 5.2 * ln(lines) - 0.23 * complexity as real
  }

  /** Clamping and truncating preserve order. */
  lemma MaintainabilityIndexMonotone(x: real, y: real)
    requires x <= y
    ensures MaintainabilityIndex(x) <= MaintainabilityIndex(y)
  {
    var cx := if x < 0.0 then 0.0 else if x > 100.0 then 100.0 else x;
    var cy := if y < 0.0 then 0.0 else if y > 100.0 then 100.0 else y;
    assert cx <= cy;
    assert cx.Floor as real <= cx <= cy < cy.Floor as real + 1.0;
  }

  /** A higher complexity figure never raises the maintainability index. */
  lemma MoreComplexityLowersIndex(lines: nat, ln: nat -> real, c1: int, c2: int)
    requires c1 <= c2
    ensures MaintainabilityIndex(MaintainabilityRaw(lines, ln, c2)) <= MaintainabilityIndex(MaintainabilityRaw(lines, ln, c1))
  {
    MaintainabilityIndexMonotone(MaintainabilityRaw(lines, ln, c2), MaintainabilityRaw(lines, ln, c1));
  }

  // ---------------------------------------------------------------------------
  // Feedback
  // ---------------------------------------------------------------------------

  const ReadabilityAdvice: string := "Improve code readability with better formatting and naming."
  const ComplexityAdvice: string := "Consider reducing complexity by breaking down large methods."
  const DocumentationAdvice: string := "Add more comments and documentation to explain your code."
  const StyleAdvice: string := "Follow language-specific style conventions more consistently."
  const GoodQuality: string := "Good code quality overall! Keep up the excellent work."

  const AdviceSentences: seq<string> := [ReadabilityAdvice, ComplexityAdvice, DocumentationAdvice, StyleAdvice]

  function FeedbackParts(readability: int, complexity: int, documentation: int, style: int): (r: seq<string>)
    ensures forall p :: p in r ==> p in AdviceSentences && |p| > |GoodQuality|
  {
    (if readability < 70 then [ReadabilityAdvice] else [])
    + (if complexity > 10 then [ComplexityAdvice] else [])
    + (if documentation < 50 then [DocumentationAdvice] else [])
    + (if style < 80 then [StyleAdvice] else [])
  }

  /** `GenerateQualityFeedback`: the advice sentences joined by spaces, or the praise sentence when there is none. */
  function QualityFeedback(readability: int, complexity: int, documentation: int, style: int): (r: string)
    ensures r != []
    ensures r == GoodQuality <==> readability >= 70 && complexity <= 10 && documentation >= 50 && style >= 80
  {
    var parts := FeedbackParts(readability, complexity, documentation, style);
    if parts == [] then GoodQuality
    else
      JoinStartsWithFirst(" ", parts);
      assert parts[0] in AdviceSentences;
      Join(" ", parts)
  }

  /** A join begins with its first part. */
  lemma {:induction false} JoinStartsWithFirst(sep: string, xs: seq<string>)
    requires |xs| > 0
    ensures StartsWith(Join(sep, xs), xs[0])
  {
    if |xs| > 1 {
      assert Join(sep, xs)[..|xs[0]|] == xs[0];
    }
  }

  const SplitSuggestion: string := "Break complex methods into smaller, focused functions."
  const OrganiseSuggestion: string := "Consider splitting long code into multiple methods for better organization."
  const NamingSuggestion: string := "Use more descriptive variable and method names."
  const HeaderSuggestion: string := "Add header comments to explain what your methods do."

  /** `GenerateImprovementSuggestions`: the applicable suggestions joined by spaces (possibly none). */
  function ImprovementSuggestions(m: QualityMetrics): (r: string)
    ensures r == [] <==>
      m.cyclomaticComplexity <= 15 && !(m.linesOfCode > 200 && m.methodCount < 5)
      && m.namingScore >= 70 && m.documentationCoverage >= 30
    ensures m.cyclomaticComplexity > 15 ==> StartsWith(r, SplitSuggestion)
  {
    var parts :=
      (if m.cyclomaticComplexity > 15 then [SplitSuggestion] else [])
      + (if m.linesOfCode > 200 && m.methodCount < 5 then [OrganiseSuggestion] else [])
      + (if m.namingScore < 70 then [NamingSuggestion] else [])
      + (if m.documentationCoverage < 30 then [HeaderSuggestion] else []);
    if parts != [] then
      JoinStartsWithFirst(" ", parts);
      Join(" ", parts)
    else []
  }

  // ---------------------------------------------------------------------------
  // The whole analysis
  // ---------------------------------------------------------------------------

  /**
   * `AnalyzeCodeQualityAsync` with the complexity figure given: every other metric is
   * computed from the code, and the feedback and suggestions from the metrics.
   * The maintainability index is derived from the line count and the same complexity
   * figure; `ln` stands for `Math.Log`. Fails when readability cannot be computed.
   */
  function AnalyzeWith(rx: RegexEngine, code: string, language: string, ln: nat -> real, complexity: int): (r: Result<QualityMetrics>)
    ensures r.Failure? <==> NonEmptyLines(code) == []
    ensures r.Success? ==>
      var m := r.value;
      && 40 <= m.readabilityScore <= 100
      && 0 <= m.namingScore <= 100
      && 0 <= m.structureScore <= 100
      && 0 <= m.documentationCoverage <= 100
      && 0 <= m.styleScore <= 100
      && 0 <= m.maintainabilityIndex <= 100
      && m.cyclomaticComplexity == complexity
      && m.linesOfCode == LinesOfCode(code)
      && m.maintainabilityIndex == MaintainabilityIndex(MaintainabilityRaw(m.linesOfCode, ln, complexity))
      && (m.styleScore == 100 <==> m.styleViolations == 0)
      && m.qualityFeedback != []
      && (complexity > 10 ==> m.qualityFeedback != GoodQuality)
      && (complexity > 15 ==> StartsWith(m.improvementSuggestions, SplitSuggestion))
  {
    match Readability(code)
    case Failure(e) => Failure(e)
    case Success(readability) =>
      var violations := CountStyleViolations(rx, code, language);
      var m := QualityMetrics(
        submissionId := 0,
        cyclomaticComplexity := complexity,
        linesOfCode := LinesOfCode(code),
        methodCount := CountMethods(rx, code, language),
        classCount := CountClasses(rx, code, language),
        readabilityScore := readability,
        namingScore := Naming(rx, code, language),
        structureScore := Structure(rx, code, language),
        documentationCoverage := Documentation(rx, code, language),
        styleScore := Style(violations),
        styleViolations := violations,
        maintainabilityIndex := MaintainabilityIndex(MaintainabilityRaw(LinesOfCode(code), ln, complexity)),
        qualityFeedback := "",
        improvementSuggestions := "",
        analysisVersion := "1.0",
        toolsUsed := "CodeGrade Static Analyzer");
      var feedback := QualityFeedback(readability, complexity, m.documentationCoverage, m.styleScore);
      var withFeedback := m.(qualityFeedback := feedback);
      var suggestions := ImprovementSuggestions(withFeedback);
      Success(withFeedback.(improvementSuggestions := suggestions))
  }

  /**
   * `AnalyzeCodeQualityAsync` as written: the stored complexity is `CalculateComplexity`
   * with its `\b||\b` pattern, so it exceeds the length of the code, and the
   * maintainability index is computed from that figure too.
   */
  function AnalyzeCodeQuality(rx: RegexEngine, code: string, language: string, ln: nat -> real): (r: Result<QualityMetrics>)
    ensures r.Failure? <==> NonEmptyLines(code) == []
    ensures r.Success? ==> r.value.cyclomaticComplexity >= |code| + 2
  {
    AnalyzeWith(rx, code, language, ln, ComplexityAsWritten(rx, code))
  }

  /** The same analysis with the corrected complexity, where "||" counts as the operator. */
  function AnalyzeCodeQualityCorrected(rx: RegexEngine, code: string, language: string, ln: nat -> real): (r: Result<QualityMetrics>)
    ensures r.Failure? <==> NonEmptyLines(code) == []
    ensures r.Success? ==> r.value.cyclomaticComplexity >= 1
  {
    AnalyzeWith(rx, code, language, ln, Complexity(rx, code))
  }

  /**
   * As written, code of nine or more characters never earns the praise sentence, and
   * code of fourteen or more always gets the advice to split its methods first.
   */
  lemma AsWrittenNeverPraises(rx: RegexEngine, code: string, language: string, ln: nat -> real)
    requires AnalyzeCodeQuality(rx, code, language, ln).Success?
    ensures var m := AnalyzeCodeQuality(rx, code, language, ln).value;
      && (|code| >= 9 ==> m.qualityFeedback != GoodQuality)
      && (|code| >= 14 ==> StartsWith(m.improvementSuggestions, SplitSuggestion))
  {
    var c := ComplexityAsWritten(rx, code);
    assert AnalyzeCodeQuality(rx, code, language, ln) == AnalyzeWith(rx, code, language, ln, c);
  }

  /**
   * The two analyses differ only in the complexity figure and what is derived from it:
   * the maintainability index and the two texts. Every other metric is the same.
   */
  lemma AnalysesDifferOnlyInComplexity(rx: RegexEngine, code: string, language: string, ln: nat -> real)
    ensures AnalyzeCodeQuality(rx, code, language, ln).Success? <==> AnalyzeCodeQualityCorrected(rx, code, language, ln).Success?
    ensures AnalyzeCodeQuality(rx, code, language, ln).Success? ==>
      var a, c := AnalyzeCodeQuality(rx, code, language, ln).value, AnalyzeCodeQualityCorrected(rx, code, language, ln).value;
      a.(cyclomaticComplexity := 0, maintainabilityIndex := 0, qualityFeedback := [], improvementSuggestions := [])
        == c.(cyclomaticComplexity := 0, maintainabilityIndex := 0, qualityFeedback := [], improvementSuggestions := [])
  {
  }

  /**
   * As written, the maintainability index is never above the corrected one: its raw
   * value is lower by 0.23 for each position the `\b||\b` pattern adds.
   */
  lemma AsWrittenIndexNotAbove(rx: RegexEngine, code: string, language: string, ln: nat -> real)
    requires AnalyzeCodeQuality(rx, code, language, ln).Success?
    ensures AnalyzeCodeQualityCorrected(rx, code, language, ln).Success?
    ensures AnalyzeCodeQuality(rx, code, language, ln).value.maintainabilityIndex
      <= AnalyzeCodeQualityCorrected(rx, code, language, ln).value.maintainabilityIndex
  {
    var written, corrected := ComplexityAsWritten(rx, code), Complexity(rx, code);
    assert AnalyzeCodeQuality(rx, code, language, ln) == AnalyzeWith(rx, code, language, ln, written);
    assert AnalyzeCodeQualityCorrected(rx, code, language, ln) == AnalyzeWith(rx, code, language, ln, corrected);
    ComplexityAsWrittenOvercounts(rx, code);
    MoreComplexityLowersIndex(LinesOfCode(code), ln, corrected, written);
  }

  /**
   * When the corrected raw value lies in 1..100 and the pattern adds at least five
   * positions (at least 1.15 off the raw value), the as-written index is strictly lower.
   * Both analyses store these two indices (see `AnalyzeWith`).
   */
  lemma AsWrittenIndexLower(rx: RegexEngine, code: string, ln: nat -> real)
    requires LinesOfCode(code) > 0
    requires 1.0 <= MaintainabilityRaw(LinesOfCode(code), ln, Complexity(rx, code)) <= 100.0
    requires |code| + 1 - OrOperatorCount(code) >= 5
    ensures MaintainabilityIndex(MaintainabilityRaw(LinesOfCode(code), ln, ComplexityAsWritten(rx, code)))
      < MaintainabilityIndex(MaintainabilityRaw(LinesOfCode(code), ln, Complexity(rx, code)))
  {
    ComplexityAsWrittenOvercounts(rx, code);
    IndexLowerBy(LinesOfCode(code), ln, Complexity(rx, code), ComplexityAsWritten(rx, code));
  }

  /** Five or more extra units of complexity lower an index whose raw value lies in 1..100. */
  lemma IndexLowerBy(lines: nat, ln: nat -> real, c1: int, c2: int)
    requires lines > 0 && c2 >= c1 + 5
    requires 1.0 <= MaintainabilityRaw(lines, ln, c1) <= 100.0
    ensures MaintainabilityIndex(MaintainabilityRaw(lines, ln, c2)) < MaintainabilityIndex(MaintainabilityRaw(lines, ln, c1))
  {
    var x, y := MaintainabilityRaw(lines, ln, c1), MaintainabilityRaw(lines, ln, c2);
    assert y <= x - 1.0;
    IndexDropsByAtLeastOne(x, y);
  }

  /** Over code lines, the as-written raw value is 0.23 lower for each position the pattern adds. */
  lemma AsWrittenRawLower(rx: RegexEngine, code: string, ln: nat -> real)
    requires LinesOfCode(code) > 0
    ensures MaintainabilityRaw(LinesOfCode(code), ln, ComplexityAsWritten(rx, code))
      == MaintainabilityRaw(LinesOfCode(code), ln, Complexity(rx, code)) - 0.23 * (|code| + 1 - OrOperatorCount(code)) as real
  {
    var c1, c2 := Complexity(rx, code), ComplexityAsWritten(rx, code);
    ComplexityAsWrittenOvercounts(rx, code);
    RawDifference(LinesOfCode(code), ln, c1, c2);
  }

  /** Over code lines, each extra unit of complexity takes 0.23 off the raw value. */
  lemma RawDifference(lines: nat, ln: nat -> real, c1: int, c2: int)
    requires lines > 0
    ensures MaintainabilityRaw(lines, ln, c2) == MaintainabilityRaw(lines, ln, c1) - 0.23 * (c2 - c1) as real
  {
  }

  /** Lowering a raw value in 1..100 by one or more lowers its index. */
  lemma IndexDropsByAtLeastOne(x: real, y: real)
    requires 1.0 <= x <= 100.0 && y <= x - 1.0
    ensures MaintainabilityIndex(y) < MaintainabilityIndex(x)
  {
    assert MaintainabilityIndex(x) as real > x - 1.0;
    if y >= 0.0 {
      assert MaintainabilityIndex(y) as real <= y;
    }
  }
}
