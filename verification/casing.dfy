/**
 * The four case conversions that converter.js installs on String.prototype
 * (toTextSpace, toSnake, toCamelCase, toPascalCase), each restated as the chain
 * of regular-expression replacements it is written as, one function per step.
 *
 * Characters are classified as JavaScript's regular expressions classify ASCII:
 * `\w` is [A-Za-z0-9_], `\s` is space, tab, line feed, vertical tab, form feed
 * and carriage return, and `.` is anything but a line feed or carriage return.
 * A character outside ASCII is neither a word nor a space character here and
 * has no case.
 */
module Casing {

  // ---------------------------------------------------------------------------
  // Character classes and case mapping

  predicate IsUpper(c: char) { 'A' <= c <= 'Z' }
  predicate IsLower(c: char) { 'a' <= c <= 'z' }
  predicate IsDigit(c: char) { '0' <= c <= '9' }
  predicate IsAlnum(c: char) { IsUpper(c) || IsLower(c) || IsDigit(c) }

  /** `\w` */
  predicate IsWord(c: char) { IsAlnum(c) || c == '_' }

  /** `\s` on ASCII: ' ', '\t', '\n', vertical tab, form feed, '\r' */
  predicate IsSpace(c: char) { c == ' ' || '\t' <= c <= '\r' }

  /** `.` (no `s` flag): every character but a line terminator */
  predicate IsDot(c: char) { c != '\n' && c != '\r' }

  /** The character classes the scanners below step over. */
  datatype CharClass = Space | Word | Dash

  predicate InClass(c: char, k: CharClass)
  {
    match k
    case Space => IsSpace(c)
    case Word => IsWord(c)
    case Dash => c == '-' || c == '_'
  }

  function ToUpper(c: char): char
  {
    if IsLower(c) then (c as int - 32) as char else c
  }

  function ToLower(c: char): char
  {
    if IsUpper(c) then (c as int + 32) as char else c
  }

  /** `toLowerCase()` */
  function LowerAll(s: string): (r: string)
  {
    seq(|s|, i requires 0 <= i < |s| => ToLower(s[i]))
  }

  predicate AllAlnum(s: string) { forall c :: c in s ==> IsAlnum(c) }
  predicate AlnumOrSpace(s: string) { forall c :: c in s ==> IsAlnum(c) || IsSpace(c) }
  predicate NoSpace(s: string) { forall c :: c in s ==> !IsSpace(c) }

  function CountUpper(s: string): nat
  {
    if s == [] then 0 else (if IsUpper(s[0]) then 1 else 0) + CountUpper(s[1..])
  }

  /** Length of the longest prefix of `s` whose characters all lie in class `k`. */
  function RunLength(s: string, k: CharClass): (n: nat)
    ensures n <= |s|
    ensures forall i :: 0 <= i < n ==> InClass(s[i], k)
    ensures n < |s| ==> !InClass(s[n], k)
  {
    if s != [] && InClass(s[0], k) then 1 + RunLength(s[1..], k) else 0
  }

  // ---------------------------------------------------------------------------
  // The replacement steps

  /** `replace(/([A-Z])/g, m => mark + m)`: `mark` before every capital. */
  function MarkCapitals(s: string, mark: char): string
  {
    if s == [] then []
    else (if IsUpper(s[0]) then [mark, s[0]] else [s[0]]) + MarkCapitals(s[1..], mark)
  }

  /** `replace(/^./, m => m.toUpperCase())` */
  function UpperFirst(s: string): string
  {
    if s != [] && IsDot(s[0]) then [ToUpper(s[0])] + s[1..] else s
  }

  /** `replace(/^./, m => m.toLowerCase())` */
  function LowerFirst(s: string): string
  {
    if s != [] && IsDot(s[0]) then [ToLower(s[0])] + s[1..] else s
  }

  function TrimStart(s: string): string
  {
    if s != [] && IsSpace(s[0]) then TrimStart(s[1..]) else s
  }

  function TrimEnd(s: string): string
  {
    if s != [] && IsSpace(s[|s| - 1]) then TrimEnd(s[..|s| - 1]) else s
  }

  /** `trim()` */
  function Trim(s: string): string { TrimEnd(TrimStart(s)) }

  /** `slice(1)` */
  function DropFirst(s: string): string { if s == [] then [] else s[1..] }

  /** `replace(/\s+/g, '')` */
  function DeleteSpaces(s: string): string
  {
    if s == [] then []
    else (if IsSpace(s[0]) then [] else [s[0]]) + DeleteSpaces(s[1..])
  }

  /** `split(c).join('')` */
  function DeleteChar(s: string, c: char): string
  {
    if s == [] then []
    else (if s[0] == c then [] else [s[0]]) + DeleteChar(s[1..], c)
  }

  /**
   * Whether offset `i` is matched by `/(?:^\w|[A-Z]|\b\w)/g`. Every alternative
   * matches one character, so the global scan tests each offset on its own; `\b`
   * before a word character holds at offset 0 or after a non-word character.
   */
  predicate CamelMatch(s: string, i: nat)
    requires i < |s|
  {
    || (i == 0 && IsWord(s[i]))
    || IsUpper(s[i])
    || (IsWord(s[i]) && (i == 0 || !IsWord(s[i - 1])))
  }

  /** The first replacement of toCamelCase: a match at offset 0 is lowered, any other raised. */
  function CamelMarks(s: string): string
  {
    seq(|s|, i requires 0 <= i < |s| =>
      if CamelMatch(s, i) then (if i == 0 then ToLower(s[i]) else ToUpper(s[i])) else s[i])
  }

  /** `replace(/[-_]+/g, ' ')`: every run of '-' and '_' becomes one space. */
  function CollapseDashes(s: string): string
  {
    if s == [] then []
    else if InClass(s[0], Dash) then [' '] + CollapseDashes(s[RunLength(s, Dash)..])
    else [s[0]] + CollapseDashes(s[1..])
  }

  /** `replace(/[^\w\s]/g, '')` */
  function DropPunctuation(s: string): string
  {
    if s == [] then []
    else (if IsWord(s[0]) || IsSpace(s[0]) then [s[0]] else []) + DropPunctuation(s[1..])
  }

  /**
   * `replace(/\s+(.)(\w+)/g, (m, c, w) => c.toUpperCase() + w.toLowerCase())`.
   *
   * A match can only begin where a whitespace run begins. The greedy `\s+`
   * first takes the whole run and `(.)` the character after it; when no word
   * character follows that one, the engine backtracks by one whitespace
   * character, so that `(.)` is the run's last space and `(\w+)` starts right
   * after the run. Otherwise no match begins anywhere in the run.
   */
  function CapitalizeWords(s: string): string
    decreases |s|
  {
    if s == [] then []
    else if !IsSpace(s[0]) then [s[0]] + CapitalizeWords(s[1..])
    else
      var r := RunLength(s, Space);
      var rest := s[r..];
      if |rest| >= 2 && IsDot(rest[0]) && IsWord(rest[1]) then
        var m := 1 + RunLength(rest[1..], Word);
        [ToUpper(rest[0])] + LowerAll(rest[1..m]) + CapitalizeWords(rest[m..])
      else if r >= 2 && IsDot(s[r - 1]) && rest != [] && IsWord(rest[0]) then
        var m := RunLength(rest, Word);
        [ToUpper(s[r - 1])] + LowerAll(rest[..m]) + CapitalizeWords(rest[m..])
      else
        s[..r] + CapitalizeWords(rest)
  }

  /** `replace(/\w/, s => s.toUpperCase())` (not global: the first word character only) */
  function UpperFirstWord(s: string): string
  {
    if s == [] then []
    else if IsWord(s[0]) then [ToUpper(s[0])] + s[1..]
    else [s[0]] + UpperFirstWord(s[1..])
  }

  // ---------------------------------------------------------------------------
  // The four conversions

  /** `toTextSpace` (converter.js:36-40) */
  function ToTextSpace(s: string): string
  {
    Trim(UpperFirst(MarkCapitals(s, ' ')))
  }

  /** `toSnake` (converter.js:42-46) */
  function ToSnake(s: string): string
  {
    DropFirst(LowerAll(Trim(LowerFirst(MarkCapitals(s, '-')))))
  }

  /** `toCamelCase` (converter.js:48-52) */
  function ToCamelCase(s: string): string
  {
    DeleteChar(DeleteChar(DeleteSpaces(CamelMarks(s)), ' '), '-')
  }

  /** `toPascalCase` (converter.js:54-64) */
  function ToPascalCase(s: string): string
  {
    var words := CapitalizeWords(DropPunctuation(CollapseDashes(s)));
    DeleteChar(DeleteChar(UpperFirstWord(DeleteSpaces(words)), ' '), '-')
  }
}
