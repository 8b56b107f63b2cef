/**
 * String helpers shared by the front end (JavaScript) and the back end (Python):
 * the two languages' white-space sets, trimming, and splitting on a separator.
 */
module Text {

  /** The two runtimes, whose notions of white space differ. */
  datatype Runtime = JavaScript | Python

  predicate IsSpace(rt: Runtime, c: char) {
    match rt
    case JavaScript => IsJsSpace(c)
    case Python => IsPySpace(c)
  }

  /** White space for JavaScript's `\s` and `String.prototype.trim`. */
  predicate IsJsSpace(c: char) {
    || c == '\t' || c == '\n' || c == '\U{000B}' || c == '\U{000C}' || c == '\r' || c == ' '
    || c == '\U{00A0}' || c == '\U{1680}' || ('\U{2000}' <= c <= '\U{200A}')
    || c == '\U{2028}' || c == '\U{2029}' || c == '\U{202F}' || c == '\U{205F}' || c == '\U{3000}'
    || c == '\U{FEFF}'
  }

  /** White space for Python's `str.strip()` (the characters `str.isspace()` accepts). */
  predicate IsPySpace(c: char) {
    || c == '\t' || c == '\n' || c == '\U{000B}' || c == '\U{000C}' || c == '\r'
    || ('\U{001C}' <= c <= '\U{001F}') || c == ' ' || c == '\U{0085}'
    || c == '\U{00A0}' || c == '\U{1680}' || ('\U{2000}' <= c <= '\U{200A}')
    || c == '\U{2028}' || c == '\U{2029}' || c == '\U{202F}' || c == '\U{205F}' || c == '\U{3000}'
  }

  ghost predicate AllSpace(s: string, rt: Runtime) {
    forall i :: 0 <= i < |s| ==> IsSpace(rt, s[i])
  }

  /** Neither end of `s` is white space. */
  predicate Trimmed(s: string, rt: Runtime) {
    s == [] || (!IsSpace(rt, s[0]) && !IsSpace(rt, s[|s| - 1]))
  }

  /** The number of white-space characters `s` starts with. */
  function LeadingSpace(s: string, rt: Runtime): (k: nat)
    ensures k <= |s|
    ensures forall i :: 0 <= i < k ==> IsSpace(rt, s[i])
    ensures k < |s| ==> !IsSpace(rt, s[k])
  {
    if s == [] || !IsSpace(rt, s[0]) then 0 else 1 + LeadingSpace(s[1..], rt)
  }

  /** Where the white space `s` ends with begins. */
  function TrailingSpace(s: string, rt: Runtime): (k: nat)
    ensures k <= |s|
    ensures forall i :: k <= i < |s| ==> IsSpace(rt, s[i])
    ensures k > 0 ==> !IsSpace(rt, s[k - 1])
  {
    if s == [] || !IsSpace(rt, s[|s| - 1]) then |s| else TrailingSpace(s[..|s| - 1], rt)
  }

  /** `s.trim()` in JavaScript, `s.strip()` in Python. */
  function Trim(s: string, rt: Runtime): (r: string)
    ensures |r| <= |s|
    ensures Trimmed(r, rt)
  {
    var a := LeadingSpace(s, rt);
    if a == |s| then [] else s[a..TrailingSpace(s, rt)]
  }

  /** `r` is a slice of `s` with only white space outside it. */
  ghost predicate SliceWithinSpace(s: string, r: string, rt: Runtime) {
    exists a, b :: 0 <= a <= b <= |s| && r == s[a..b] && AllSpace(s[..a], rt) && AllSpace(s[b..], rt)
  }

  /**
   * Trimming removes the longest white-space prefix and suffix: what is left is a
   * slice of `s` that neither starts nor ends with white space, only white space
   * lies outside it, and it is empty exactly when `s` is all white space.
   */
  lemma TrimIsMaximalSlice(s: string, rt: Runtime)
    ensures SliceWithinSpace(s, Trim(s, rt), rt)
    ensures Trim(s, rt) == [] <==> AllSpace(s, rt)
  {
    var a := LeadingSpace(s, rt);
    if a == |s| {
      assert s[..a] == s && s[a..a] == [];
      assert AllSpace(s[..a], rt) && AllSpace(s[a..], rt);
    } else {
      var b := TrailingSpace(s, rt);
      assert AllSpace(s[..a], rt) && AllSpace(s[b..], rt);
      assert !IsSpace(rt, s[a]);
    }
  }

  /** A string without white space at either end is its own trim. */
  lemma TrimTrimmed(s: string, rt: Runtime)
    requires Trimmed(s, rt)
    ensures Trim(s, rt) == s
  {
  }

  /** Trimming twice is trimming once. */
  lemma TrimIdempotent(s: string, rt: Runtime)
    ensures Trim(Trim(s, rt), rt) == Trim(s, rt)
  {
    TrimTrimmed(Trim(s, rt), rt);
  }

  /** `s.split(sep)` in Python: the pieces between separators, empty pieces included. */
  function Split(s: string, sep: char): (parts: seq<string>)
    ensures |parts| >= 1
    ensures forall i :: 0 <= i < |parts| ==> sep !in parts[i]
  {
    if s == [] then [""]
    else
      var rest := Split(s[1..], sep);
      if s[0] == sep then [""] + rest
      else [[s[0]] + rest[0]] + rest[1..]
  }

  /** `sep.join(parts)` in Python. */
  function Join(parts: seq<string>, sep: char): string {
    if parts == [] then ""
    else if |parts| == 1 then parts[0]
    else parts[0] + [sep] + Join(parts[1..], sep)
  }

  /** Joining the pieces with the separator gives back the string that was split. */
  lemma {:induction false} JoinSplit(s: string, sep: char)
    ensures Join(Split(s, sep), sep) == s
  {
    if s != [] {
      var rest := Split(s[1..], sep);
      JoinSplit(s[1..], sep);
      if s[0] == sep {
        assert s == [sep] + s[1..];
      } else {
        assert Join(Split(s, sep), sep) == [s[0]] + Join(rest, sep);
        assert s == [s[0]] + s[1..];
      }
    }
  }

  /** Splitting a join gives back the pieces, in order, when no piece holds the separator. */
  lemma {:induction false} SplitJoin(parts: seq<string>, sep: char)
    requires |parts| >= 1
    requires forall i :: 0 <= i < |parts| ==> sep !in parts[i]
    ensures Split(Join(parts, sep), sep) == parts
    decreases |parts|, |parts[0]|
  {
    if |parts| == 1 {
      SplitNoSeparator(parts[0], sep);
    } else if parts[0] == [] {
      SplitJoin(parts[1..], sep);
      assert Join(parts, sep) == [sep] + Join(parts[1..], sep);
      assert parts == [""] + parts[1..];
    } else {
      var c := parts[0][0];
      var shorter := [parts[0][1..]] + parts[1..];
      assert shorter[1..] == parts[1..];
      SplitJoin(shorter, sep);
      assert Join(parts, sep) == [c] + Join(shorter, sep);
      assert parts[0] == [c] + parts[0][1..];
      assert parts == [[c] + shorter[0]] + shorter[1..];
    }
  }

  lemma {:induction false} SplitNoSeparator(s: string, sep: char)
    requires sep !in s
    ensures Split(s, sep) == [s]
  {
    if s != [] {
      SplitNoSeparator(s[1..], sep);
      assert s == [s[0]] + s[1..];
    }
  }
}
