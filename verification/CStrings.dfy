/** NUL-terminated strings in memory. */
module CStrings {
  import opened ByteCodec

  /** The C string at the start of `s`: the bytes before the first NUL. */
  function UpToNul(s: seq<Byte>): (r: seq<Byte>)
    ensures r <= s && 0 !in r && (|r| < |s| ==> s[|r|] == 0)
  {
    if s == [] || s[0] == 0 then [] else [s[0]] + UpToNul(s[1..])
  }

  /** What follows a terminated name does not matter. */
  lemma {:induction false} UpToNulOf(name: seq<Byte>, rest: seq<Byte>)
    requires rest != [] && rest[0] == 0
    ensures UpToNul(name + rest) == UpToNul(name)
  {
    if name == [] {
      assert name + rest == rest;
    } else {
      assert (name + rest)[1..] == name[1..] + rest;
      UpToNulOf(name[1..], rest);
    }
  }

  /** A name survives exactly when it contains no NUL. */
  lemma {:induction false} UpToNulIsAllIff(s: seq<Byte>)
    ensures UpToNul(s) == s <==> 0 !in s
  {
    if s != [] && s[0] != 0 {
      UpToNulIsAllIff(s[1..]);
      assert s == [s[0]] + s[1..];
      assert UpToNul(s)[1..] == UpToNul(s[1..]);
    }
  }

  /** The prefix before the first NUL is the C string. */
  lemma {:induction false} UpToNulIs(s: seq<Byte>, name: seq<Byte>)
    requires name < s && 0 !in name && s[|name|] == 0
    ensures UpToNul(s) == name
  {
    if name != [] { UpToNulIs(s[1..], name[1..]); }
  }
}
