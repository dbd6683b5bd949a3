/** The string operations the request body editor's gutter uses: JavaScript's
    `trim` and `split('\n')`. */
module TextLines {

  /** The characters `String.prototype.trim` removes: the ECMAScript
      WhiteSpace and LineTerminator code points. */
  predicate IsJsWhitespace(c: char)
  {
    c == '\t' || c == '\n' || c == '\U{B}' || c == '\U{C}' || c == '\r' || c == ' ' ||
    c == '\U{A0}' || c == '\U{1680}' || ('\U{2000}' <= c <= '\U{200A}') ||
    c == '\U{2028}' || c == '\U{2029}' || c == '\U{202F}' || c == '\U{205F}' ||
    c == '\U{3000}' || c == '\U{FEFF}'
  }

  /** `s` with its leading whitespace removed. */
  function TrimStart(s: string): (r: string)
    ensures |r| <= |s| && r == s[|s| - |r|..]
    ensures forall i :: 0 <= i < |s| - |r| ==> IsJsWhitespace(s[i])
    ensures r != [] ==> !IsJsWhitespace(r[0])
  {
    if s != [] && IsJsWhitespace(s[0]) then TrimStart(s[1..]) else s
  }

  /** `s` with its trailing whitespace removed. */
  function TrimEnd(s: string): (r: string)
    ensures |r| <= |s| && r == s[..|r|]
    ensures forall i :: |r| <= i < |s| ==> IsJsWhitespace(s[i])
    ensures r != [] ==> !IsJsWhitespace(r[|r| - 1])
  {
    if s != [] && IsJsWhitespace(s[|s| - 1]) then TrimEnd(s[..|s| - 1]) else s
  }

  /** `s.trim()`: the piece of `s` after its leading whitespace, cut where
      its trailing whitespace starts. */
  function Trim(s: string): (r: string)
    ensures var k := |s| - |TrimStart(s)|;
            k + |r| <= |s| && r == s[k..k + |r|] &&
            (forall i :: 0 <= i < k ==> IsJsWhitespace(s[i])) &&
            (forall i :: k + |r| <= i < |s| ==> IsJsWhitespace(s[i]))
    ensures r != [] ==> !IsJsWhitespace(r[0]) && !IsJsWhitespace(r[|r| - 1])
  {
    TrimEnd(TrimStart(s))
  }

  /** A text trims to nothing exactly when every character is whitespace. */
  lemma TrimEmpty(s: string)
    ensures Trim(s) == [] <==> forall i :: 0 <= i < |s| ==> IsJsWhitespace(s[i])
  {
    var t := TrimStart(s);
    if t != [] {
      assert !IsJsWhitespace(s[|s| - |t|]);
    }
  }

  /** The trimmed text ends with the last character of the text that is not
      whitespace. */
  lemma TrimLast(s: string, i: nat)
    requires i < |s| && !IsJsWhitespace(s[i])
    requires forall j :: i < j < |s| ==> IsJsWhitespace(s[j])
    ensures Trim(s) != [] && Trim(s)[|Trim(s)| - 1] == s[i]
  {
    var t := TrimStart(s);
    var k := |s| - |t|;
    var r := TrimEnd(t);
    assert k <= i;
    assert t[i - k] == s[i];
    assert |r| == i - k + 1;
    assert r[|r| - 1] == t[i - k];
  }

  /** Conversely, a non-empty trimmed text ends with a character of the text
      after which only whitespace follows. */
  lemma TrimLastIsLastVisible(s: string)
    requires Trim(s) != []
    ensures var r := Trim(s); var i := |s| - |TrimStart(s)| + |r| - 1;
            0 <= i < |s| && s[i] == r[|r| - 1] && forall j :: i < j < |s| ==> IsJsWhitespace(s[j])
  {
  }

  /** `s.split('\n')`: the pieces between line feeds; there is always at
      least one, and none contains a line feed. */
  function SplitLines(s: string): (r: seq<string>)
    ensures |r| >= 1
    ensures forall i :: 0 <= i < |r| ==> '\n' !in r[i]
  {
    if s == [] then [""]
    else
      var rest := SplitLines(s[1..]);
      if s[0] == '\n' then [""] + rest
      else [[s[0]] + rest[0]] + rest[1..]
  }

  /** `lines.join('\n')`. */
  function JoinLines(lines: seq<string>): string
    requires |lines| >= 1
  {
    if |lines| == 1 then lines[0] else lines[0] + "\n" + JoinLines(lines[1..])
  }

  function CountLineFeeds(s: string): nat
  {
    if s == [] then 0 else (if s[0] == '\n' then 1 else 0) + CountLineFeeds(s[1..])
  }

  /** Splitting loses nothing: joining the pieces gives the text back, and
      there is one piece more than there are line feeds. */
  lemma {:induction false} SplitJoin(s: string)
    ensures JoinLines(SplitLines(s)) == s
    ensures |SplitLines(s)| == CountLineFeeds(s) + 1
  {
    if s != [] {
      SplitJoin(s[1..]);
      var rest := SplitLines(s[1..]);
      if s[0] == '\n' {
        assert SplitLines(s)[1..] == rest;
        assert s == "\n" + s[1..];
      } else {
        var r := SplitLines(s);
        assert r[1..] == rest[1..];
        if |rest| == 1 {
          assert s == [s[0]] + s[1..];
        } else {
          assert JoinLines(rest) == rest[0] + "\n" + JoinLines(rest[1..]);
          assert s == [s[0]] + s[1..];
        }
      }
    }
  }
}
