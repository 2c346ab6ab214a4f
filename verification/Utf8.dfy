/** Well-formed UTF-8 byte strings, as section 4 of RFC 3629 defines them. */
module Utf8 {
  import opened Basics

  predicate Tail(b: Byte) {
    0x80 <= b <= 0xbf
  }

  /** Length of the well-formed character at the front of `s`, 0 when there is none. */
  function CharLength(s: seq<Byte>): (n: nat)
    ensures n <= |s|
  {
    if s == [] then 0
    else if s[0] <= 0x7f then 1
    else if 0xc2 <= s[0] <= 0xdf then
      if |s| >= 2 && Tail(s[1]) then 2 else 0
    else if 0xe0 <= s[0] <= 0xef then
      if |s| >= 3 && Tail(s[1]) && Tail(s[2])
         && (s[0] == 0xe0 ==> s[1] >= 0xa0) && (s[0] == 0xed ==> s[1] <= 0x9f) then 3 else 0
    else if 0xf0 <= s[0] <= 0xf4 then
      if |s| >= 4 && Tail(s[1]) && Tail(s[2]) && Tail(s[3])
         && (s[0] == 0xf0 ==> s[1] >= 0x90) && (s[0] == 0xf4 ==> s[1] <= 0x8f) then 4 else 0
    else 0
  }

  predicate ValidUtf8(s: seq<Byte>) {
    s == [] || (CharLength(s) > 0 && ValidUtf8(s[CharLength(s)..]))
  }

  /** The bytes of a Rust `String`. */
  type Text = s: seq<Byte> | ValidUtf8(s) witness []

  lemma {:induction false} AsciiIsUtf8(s: seq<Byte>)
    requires forall b :: b in s ==> b <= 0x7f
    ensures ValidUtf8(s)
  {
    if s == [] {
    } else {
      assert s[0] in s;
      assert forall b :: b in s[1..] ==> b in s;
      AsciiIsUtf8(s[1..]);
    }
  }
}
