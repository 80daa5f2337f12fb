/** Byte classes and scanning. A source is a string with one character per byte,
    classified as Go's unicode package classifies the Latin-1 code points. */
module Chars {

  predicate IsSpace(c: char) {
    || c == ' ' || '\t' <= c <= '\r'
    || c == '\U{0085}' || c == '\U{00A0}'
  }

  predicate IsDigit(c: char) {
    '0' <= c <= '9'
  }

  predicate IsLetter(c: char) {
    || 'a' <= c <= 'z' || 'A' <= c <= 'Z'
    || c == '\U{00AA}' || c == '\U{00B5}' || c == '\U{00BA}'
    || ('\U{00C0}' <= c <= '\U{00FF}' && c != '\U{00D7}' && c != '\U{00F7}')
  }

  predicate IsNumberChar(c: char) {
    IsDigit(c) || c == '.'
  }

  predicate IsIdentStart(c: char) {
    c == '_' || IsLetter(c)
  }

  predicate IsIdentChar(c: char) {
    IsLetter(c) || IsDigit(c) || c == '_' || c == '-'
  }

  predicate IsQuote(c: char) {
    c == '"' || c == '\''
  }

  /** The test "any character but `q`". */
  function NotChar(q: char): char -> bool {
    c => c != q
  }

  predicate All(s: string, p: char -> bool) {
    forall k | 0 <= k < |s| :: p(s[k])
  }

  predicate IsAscii(s: string) {
    forall k | 0 <= k < |s| :: s[k] as int < 0x80
  }

  /** The end of the longest run of `p`-characters that starts at `i`. */
  function RunEnd(src: string, i: nat, p: char -> bool): (j: nat)
    requires i <= |src|
    ensures i <= j <= |src|
    ensures All(src[i..j], p)
    ensures j < |src| ==> !p(src[j])
    decreases |src| - i
  {
    if i < |src| && p(src[i]) then
      var j := RunEnd(src, i + 1, p);
      assert src[i..j] == [src[i]] + src[i + 1..j];
      j
    else i
  }

  /** One step of a run. */
  lemma {:induction false} RunTurn(src: string, i: nat, p: char -> bool)
    requires i <= |src|
    ensures RunEnd(src, i, p) == if i < |src| && p(src[i]) then RunEnd(src, i + 1, p) else i
  {
  }

  /** The run end is the only position with these two properties. */
  lemma {:induction false} RunEndUnique(src: string, i: nat, j: nat, p: char -> bool)
    requires i <= j <= |src|
    requires All(src[i..j], p)
    requires j < |src| ==> !p(src[j])
    ensures RunEnd(src, i, p) == j
    decreases j - i
  {
    if i < j {
      assert p(src[i..j][0]);
      assert src[i + 1..j] == src[i..j][1..];
      RunEndUnique(src, i + 1, j, p);
    }
  }
}
