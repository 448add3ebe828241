/** The parts of Python's `str` behaviour that the yes/no parser relies on:
    `isspace`, `strip`, `lower` and `startswith`. */
module PyStr {

  /** The characters for which Python's `str.isspace()` is true. */
  predicate IsSpace(c: char) {
    c == ' ' || ('\t' <= c <= '\r') || ('\U{1c}' <= c <= '\U{1f}')
    || c == '\U{85}' || c == '\U{a0}' || c == '\U{1680}'
    || ('\U{2000}' <= c <= '\U{200a}') || c == '\U{2028}' || c == '\U{2029}'
    || c == '\U{202f}' || c == '\U{205f}' || c == '\U{3000}'
  }

  predicate AllSpace(t: string) {
    forall i :: 0 <= i < |t| ==> IsSpace(t[i])
  }

  /** `t.lstrip()`: `t` without its leading blanks. */
  function LStrip(t: string): string
    decreases |t|
  {
    if t != [] && IsSpace(t[0]) then LStrip(t[1..]) else t
  }

  /** `LStrip` removes the longest all-blank prefix and nothing else. */
  lemma {:induction false} LStripSpec(t: string)
    ensures var r := LStrip(t);
      && |r| <= |t| && r == t[|t| - |r|..]
      && AllSpace(t[..|t| - |r|])
      && (r == [] || !IsSpace(r[0]))
    decreases |t|
  {
    if t != [] && IsSpace(t[0]) {
      LStripSpec(t[1..]);
      var r := LStrip(t);
      assert t[1..][|t| - 1 - |r|..] == t[|t| - |r|..];
      assert t[..|t| - |r|] == [t[0]] + t[1..][..|t| - 1 - |r|];
    }
  }

  /** `t.rstrip()`: `t` without its trailing blanks. */
  function RStrip(t: string): string
    decreases |t|
  {
    if t != [] && IsSpace(t[|t| - 1]) then RStrip(t[..|t| - 1]) else t
  }

  /** `RStrip` removes the longest all-blank suffix and nothing else. */
  lemma {:induction false} RStripSpec(t: string)
    ensures var r := RStrip(t);
      && |r| <= |t| && r == t[..|r|]
      && AllSpace(t[|r|..])
      && (r == [] || !IsSpace(r[|r| - 1]))
    decreases |t|
  {
    if t != [] && IsSpace(t[|t| - 1]) {
      var init := t[..|t| - 1];
      RStripSpec(init);
      var r := RStrip(t);
      assert init[..|r|] == t[..|r|];
      assert t[|r|..] == init[|r|..] + [t[|t| - 1]];
    }
  }

  /** `t.strip()` */
  function Strip(t: string): string {
    RStrip(LStrip(t))
  }

  /** Lower-casing of one character; only the ASCII capitals are mapped. */
  function LowerChar(c: char): char {
    if 'A' <= c <= 'Z' then (c as int - 'A' as int + 'a' as int) as char else c
  }

  /** `t.lower()`, character by character. */
  function Lower(t: string): string {
    if t == [] then [] else [LowerChar(t[0])] + Lower(t[1..])
  }

  /** `Lower` maps each character and keeps the length. */
  lemma {:induction false} LowerSpec(t: string)
    ensures |Lower(t)| == |t|
    ensures forall i :: 0 <= i < |t| ==> Lower(t)[i] == LowerChar(t[i])
  {
    if t != [] {
      LowerSpec(t[1..]);
      forall i | 1 <= i < |t| ensures Lower(t)[i] == LowerChar(t[i]) {
        assert Lower(t)[i] == Lower(t[1..])[i - 1];
      }
    }
  }

  /** `s.startswith(prefix)` */
  predicate StartsWith(s: string, prefix: string) {
    |prefix| <= |s| && s[..|prefix|] == prefix
  }
}
