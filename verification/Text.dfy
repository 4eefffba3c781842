/** The parts of Go's strings package that decide a branch somewhere. */
module Text {

  /** `unicode.IsSpace` */
  predicate IsSpace(c: char) {
    c in "\t\n \r" || c in {0x0B as char, 0x0C as char, 0x85 as char, 0xA0 as char, 0x1680 as char}
    || 0x2000 as char <= c <= 0x200A as char
    || c in {0x2028 as char, 0x2029 as char, 0x202F as char, 0x205F as char, 0x3000 as char}
  }

  predicate Blank(s: string) {
    forall c <- s :: IsSpace(c)
  }

  /** `strings.TrimSpace` */
  function TrimSpace(s: string): (t: string)
    ensures t != [] ==> !IsSpace(t[0]) && !IsSpace(t[|t| - 1])
    ensures t == "" <==> Blank(s)
    decreases |s|
  {
    if s == "" then ""
    else if IsSpace(s[0]) then
      assert s == [s[0]] + s[1..];
      TrimSpace(s[1..])
    else if IsSpace(s[|s| - 1]) then
      assert s[0] in s;
      assert s[0] in s[..|s| - 1];
      TrimSpace(s[..|s| - 1])
    else
      assert s[0] in s;
      s
  }
}
