/**
 * The pieces of JavaScript string behaviour the backend relies on:
 * optional (missing) values, the ECMAScript white-space set used by `trim`
 * and by `\s` in regular expressions, `split("\n")` / `join("\n")`,
 * `startsWith`, `includes`, ASCII upper-casing and `.length`, which counts
 * UTF-16 code units.
 *
 * A JavaScript string is modelled as a `seq<char>` of Unicode scalar values;
 * every character the code compares against is in the Basic Multilingual
 * Plane, so only `.length` needs to know about surrogate pairs.
 */
module JsText {

  /** A value that may be missing (`undefined` or `null` in the source). */
  datatype Option<+T> = None | Some(value: T)

  /** ECMAScript LineTerminator: the characters `.` in a regular expression refuses. */
  predicate IsLineTerminator(c: char) {
    c == '\n' || c == '\r' || c == '\U{2028}' || c == '\U{2029}'
  }

  /** ECMAScript WhiteSpace or LineTerminator: what `\s` matches and `trim` removes. */
  predicate IsWhitespace(c: char) {
    || IsLineTerminator(c)
    || c == '\t' || c == '\U{B}' || c == '\U{C}' || c == ' '
    || c == '\U{A0}' || c == '\U{1680}' || ('\U{2000}' <= c <= '\U{200A}')
    || c == '\U{202F}' || c == '\U{205F}' || c == '\U{3000}' || c == '\U{FEFF}'
  }

  /** True when every character of `s` is white space (`s.trim() === ""`). */
  predicate IsBlank(s: string) {
    forall i :: 0 <= i < |s| ==> IsWhitespace(s[i])
  }

  /** `String.prototype.trimStart`. */
  function TrimStart(s: string): (r: string)
    ensures |r| <= |s| && r == s[|s| - |r|..]
    ensures r == [] || !IsWhitespace(r[0])
  {
    if s != [] && IsWhitespace(s[0]) then TrimStart(s[1..]) else s
  }

  /** What trimStart removes is white space. */
  lemma {:induction false} TrimStartRemovesWhitespace(s: string)
    ensures forall i :: 0 <= i < |s| - |TrimStart(s)| ==> IsWhitespace(s[i])
  {
    if s != [] && IsWhitespace(s[0]) {
      TrimStartRemovesWhitespace(s[1..]);
      forall i | 1 <= i < |s| - |TrimStart(s)| ensures IsWhitespace(s[i]) {
        assert s[i] == s[1..][i - 1];
      }
    }
  }

  /** `String.prototype.trimEnd`. */
  function TrimEnd(s: string): (r: string)
    ensures |r| <= |s| && r == s[..|r|]
    ensures r == [] || !IsWhitespace(r[|r| - 1])
  {
    if s != [] && IsWhitespace(s[|s| - 1]) then TrimEnd(s[..|s| - 1]) else s
  }

  /** What trimEnd removes is white space. */
  lemma {:induction false} TrimEndRemovesWhitespace(s: string)
    ensures forall i :: |TrimEnd(s)| <= i < |s| ==> IsWhitespace(s[i])
  {
    if s != [] && IsWhitespace(s[|s| - 1]) {
      TrimEndRemovesWhitespace(s[..|s| - 1]);
      forall i | |TrimEnd(s)| <= i < |s| - 1 ensures IsWhitespace(s[i]) {
        assert s[i] == s[..|s| - 1][i];
      }
    }
  }

  /**
   * `String.prototype.trim`: the longest infix of `s` that neither starts nor
   * ends with white space; empty exactly when `s` is blank.
   */
  function Trim(s: string): (r: string)
    ensures |r| <= |s|
    ensures r != [] ==> !IsWhitespace(r[0]) && !IsWhitespace(r[|r| - 1])
  {
    var front := TrimStart(s);
    var r := TrimEnd(front);
    assert r != [] ==> r[0] == front[0];
    r
  }

  /** Trimming leaves nothing exactly when the string is blank. */
  lemma TrimEmptyIff(s: string)
    ensures Trim(s) == [] <==> IsBlank(s)
  {
    var front := TrimStart(s);
    TrimStartRemovesWhitespace(s);
    if front != [] {
      assert s[|s| - |front|] == front[0];
      TrimEndRemovesWhitespace(front);
      assert TrimEnd(front) != [];
    }
  }

  /** A string that neither starts nor ends with white space is its own trim. */
  lemma TrimOfTrimmed(s: string)
    requires s != [] ==> !IsWhitespace(s[0]) && !IsWhitespace(s[|s| - 1])
    ensures Trim(s) == s
  {
    assert TrimStart(s) == s;
    assert TrimEnd(s) == s;
  }

  /** White space in front of a string disappears under trimming. */
  lemma {:induction false} TrimSkipsBlankPrefix(a: string, b: string)
    requires IsBlank(a)
    ensures Trim(a + b) == Trim(b)
    decreases |a|
  {
    if a != [] {
      assert (a + b)[0] == a[0];
      assert (a + b)[1..] == a[1..] + b;
      TrimSkipsBlankPrefix(a[1..], b);
    } else {
      assert a + b == b;
    }
  }

  /** `s.startsWith(p)`. */
  predicate StartsWith(s: string, p: string) {
    |p| <= |s| && s[..|p|] == p
  }

  /** `s.includes(sub)`: `sub` occurs somewhere in `s`. */
  predicate Contains(s: string, sub: string)
    decreases |s|
  {
    StartsWith(s, sub) || (s != [] && Contains(s[1..], sub))
  }

  /** `lines.join("\n")`. */
  function Join(lines: seq<string>): string
  {
    if |lines| == 0 then ""
    else if |lines| == 1 then lines[0]
    else lines[0] + "\n" + Join(lines[1..])
  }

  /** `s.split("\n")`: always at least one piece, none holding a newline. */
  function Split(s: string): (lines: seq<string>)
    ensures |lines| >= 1
    ensures forall k :: 0 <= k < |lines| ==> '\n' !in lines[k]
  {
    if s == [] then [""]
    else
      var rest := Split(s[1..]);
      if s[0] == '\n' then [""] + rest
      else [[s[0]] + rest[0]] + rest[1..]
  }

  /** A line without a newline in front of any text: Split splits after the line. */
  lemma {:induction false} SplitPrefix(a: string, b: string)
    requires '\n' !in a
    ensures Split(a + b) == [a + Split(b)[0]] + Split(b)[1..]
    decreases |a|
  {
    if a != [] {
      assert (a + b)[1..] == a[1..] + b;
      SplitPrefix(a[1..], b);
      assert [a[0]] + (a[1..] + Split(b)[0]) == a + Split(b)[0];
    } else {
      assert a + b == b;
      assert a + Split(b)[0] == Split(b)[0];
      assert Split(b) == [Split(b)[0]] + Split(b)[1..];
    }
  }

  /** Joining the pieces of a split gives back the string. */
  lemma {:induction false} JoinSplit(s: string)
    ensures Join(Split(s)) == s
    decreases |s|
  {
    if s != [] {
      var rest := Split(s[1..]);
      JoinSplit(s[1..]);
      if s[0] == '\n' {
        assert ([""] + rest)[1..] == rest;
        assert s == "\n" + s[1..];
      } else {
        var lines := [[s[0]] + rest[0]] + rest[1..];
        if |rest| == 1 {
          assert s == [s[0]] + s[1..];
        } else {
          assert lines[1..] == rest[1..];
          assert Join(rest) == rest[0] + "\n" + Join(rest[1..]);
          assert s == [s[0]] + s[1..];
        }
      }
    }
  }

  /** Splitting a join of newline-free lines gives back the lines. */
  lemma {:induction false} SplitJoin(lines: seq<string>)
    requires |lines| >= 1
    requires forall k :: 0 <= k < |lines| ==> '\n' !in lines[k]
    ensures Split(Join(lines)) == lines
    decreases |lines|
  {
    if |lines| == 1 {
      SplitPrefix(lines[0], "");
      assert lines[0] + "" == lines[0];
    } else {
      var tail := Join(lines[1..]);
      SplitJoin(lines[1..]);
      assert Join(lines) == lines[0] + ("\n" + tail);
      SplitPrefix(lines[0], "\n" + tail);
      assert ("\n" + tail)[1..] == tail;
      assert Split("\n" + tail) == [""] + lines[1..];
      assert lines[0] + "" == lines[0];
    }
  }

  /** Splitting around a newline splits each side. */
  lemma {:induction false} SplitAround(a: string, b: string)
    ensures Split(a + "\n" + b) == Split(a) + Split(b)
    decreases |a|
  {
    if a == [] {
      assert (a + "\n" + b)[1..] == b;
    } else {
      SplitAround(a[1..], b);
      SplitAroundStep(a, b);
    }
  }

  /** The inductive step of `SplitAround`: one more character in front. */
  lemma SplitAroundStep(a: string, b: string)
    requires a != []
    requires Split(a[1..] + "\n" + b) == Split(a[1..]) + Split(b)
    ensures Split(a + "\n" + b) == Split(a) + Split(b)
  {
    AroundParts(a, b);
    if a[0] == '\n' {
      assert ([""] + Split(a[1..])) + Split(b) == [""] + (Split(a[1..]) + Split(b));
    } else {
      FirstLineMerge(a[0], Split(a[1..]), Split(b));
    }
  }

  /** The head and the tail of a text joined around a newline. */
  lemma AroundParts(a: string, b: string)
    requires a != []
    ensures (a + "\n" + b)[0] == a[0]
    ensures (a + "\n" + b)[1..] == a[1..] + "\n" + b
  {
  }

  /** Gluing a character to the first line commutes with appending more lines. */
  lemma FirstLineMerge(c: char, front: seq<string>, back: seq<string>)
    requires |front| >= 1
    ensures [[c] + (front + back)[0]] + (front + back)[1..] == ([[c] + front[0]] + front[1..]) + back
  {
    assert (front + back)[1..] == front[1..] + back;
  }

  /** The first line of a join starts the joined text. */
  lemma {:induction false} JoinStartsWithFirst(lines: seq<string>)
    requires |lines| >= 1
    ensures |Join(lines)| >= |lines[0]|
  {
  }

  /** ASCII upper-casing of one character. */
  function AsciiUpper(c: char): char {
    if 'a' <= c <= 'z' then (c as int - 'a' as int + 'A' as int) as char else c
  }

  /** `s.toUpperCase()` restricted to ASCII letters. */
  function ToUpperCase(s: string): (r: string)
    ensures |r| == |s|
    ensures forall i :: 0 <= i < |s| ==> r[i] == AsciiUpper(s[i])
  {
    seq(|s|, i requires 0 <= i < |s| => AsciiUpper(s[i]))
  }

  /** `s.length`: characters outside the Basic Multilingual Plane count twice. */
  function Utf16Length(s: string): (n: nat)
    ensures |s| <= n <= 2 * |s|
  {
    if s == [] then 0
    else (if s[0] as int >= 0x1_0000 then 2 else 1) + Utf16Length(s[1..])
  }
}
