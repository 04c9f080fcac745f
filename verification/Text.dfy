/** The characters the language counts as white space. */
module Text {

  predicate IsSpace(c: char) {
    '\t' <= c <= '\r' || c == ' ' || c == '\U{a0}' || c == '\U{1680}' || '\U{2000}' <= c <= '\U{200a}'
    || c == '\U{2028}' || c == '\U{2029}' || c == '\U{202f}' || c == '\U{205f}' || c == '\U{3000}' || c == '\U{feff}'
  }

  /** The code points of white space, as the language lists them. */
  lemma SpaceCodes(c: char)
    ensures var n := c as int;
            IsSpace(c) <==> 9 <= n <= 13 || 8192 <= n <= 8202
                            || n in {32, 160, 5760, 8232, 8233, 8239, 8287, 12288, 65279}
  {
  }

  function SkipSpaces(s: string): (r: string)
    ensures |r| <= |s|
  {
    if s != [] && IsSpace(s[0]) then SkipSpaces(s[1..]) else s
  }

  function DropSpaces(s: string): string {
    if s != [] && IsSpace(s[|s| - 1]) then DropSpaces(s[..|s| - 1]) else s
  }

  function Trim(s: string): string {
    DropSpaces(SkipSpaces(s))
  }

  lemma {:induction false} SkipsAll(spaces: string, rest: string)
    requires (forall i | 0 <= i < |spaces| :: IsSpace(spaces[i])) && (rest != [] ==> !IsSpace(rest[0]))
    ensures SkipSpaces(spaces + rest) == rest
  {
    if spaces == [] {
      assert spaces + rest == rest;
    } else {
      SkipsAll(spaces[1..], rest);
      assert (spaces + rest)[1..] == spaces[1..] + rest;
    }
  }

  /** What was skipped is white space, and what is left does not begin with any. */
  lemma {:induction false} SkippedIsSpace(s: string)
    ensures var r := SkipSpaces(s);
            && s == s[..|s| - |r|] + r
            && (forall i | 0 <= i < |s| - |r| :: IsSpace(s[i]))
            && (r != [] ==> !IsSpace(r[0]))
  {
    if s != [] && IsSpace(s[0]) {
      SkippedIsSpace(s[1..]);
      assert s == [s[0]] + s[1..];
    }
  }
}
