/** Text as Python strips it. */
module Text {

  /** `str.isspace` for one character. */
  predicate IsSpace(c: char) {
    var n := c as int;
    9 <= n <= 13 || 28 <= n <= 32 || n == 0x85 || n == 0xA0 || n == 0x1680 || 0x2000 <= n <= 0x200A ||
    n == 0x2028 || n == 0x2029 || n == 0x202F || n == 0x205F || n == 0x3000
  }

  function StripLeft(s: string): string { if s != "" && IsSpace(s[0]) then StripLeft(s[1..]) else s }

  function StripRight(s: string): string { if s != "" && IsSpace(s[|s| - 1]) then StripRight(s[..|s| - 1]) else s }

  function Strip(s: string): string { StripRight(StripLeft(s)) }

  lemma {:induction false} StripRightKeepsTheStart(s: string)
    requires s != "" && !IsSpace(s[0])
    ensures StripRight(s) != "" && StripRight(s)[0] == s[0]
    decreases |s|
  {
    if IsSpace(s[|s| - 1]) { StripRightKeepsTheStart(s[..|s| - 1]); }
  }
}
