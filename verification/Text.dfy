/**
 Text operations of the Go standard library that the modelled code relies on:
 `strings.TrimSpace`, `strings.HasPrefix`, `unicode.IsSpace` and the byte length
 of a UTF-8 string.
 */
module Text {

  /** The code points `unicode.IsSpace` accepts. */
  predicate IsSpace(c: char) {
    || '\t' <= c <= '\r' || c == ' '
    || c == '\U{85}' || c == '\U{A0}' || c == '\U{1680}'
    || '\U{2000}' <= c <= '\U{200A}'
    || c == '\U{2028}' || c == '\U{2029}' || c == '\U{202F}'
    || c == '\U{205F}' || c == '\U{3000}'
  }

  predicate HasSpace(s: string) {
    exists i :: 0 <= i < |s| && IsSpace(s[i])
  }

  function TrimLeft(s: string): string {
    if s != [] && IsSpace(s[0]) then TrimLeft(s[1..]) else s
  }

  function TrimRight(s: string): string {
    if s != [] && IsSpace(s[|s| - 1]) then TrimRight(s[..|s| - 1]) else s
  }

  function Trim(s: string): string {
    TrimRight(TrimLeft(s))
  }

  predicate HasPrefix(s: string, p: string) {
    p <= s
  }

  predicate HasSuffix(s: string, p: string) {
    |p| <= |s| && s[|s| - |p|..] == p
  }

  /** Bytes a code point takes in UTF-8. */
  function CharBytes(c: char): nat {
    if c < '\U{80}' then 1 else if c < '\U{800}' then 2 else if c < '\U{10000}' then 3 else 4
  }

  /** Go's `len` of a string. */
  function ByteLen(s: string): nat {
    if s == [] then 0 else CharBytes(s[0]) + ByteLen(s[1..])
  }

  /** A string with no space at either end. */
  predicate Trimmed(s: string) {
    s == [] || (!IsSpace(s[0]) && !IsSpace(s[|s| - 1]))
  }

  /** The white space of Unicode, one code point after the other. */
  lemma SpacesAre(c: char)
    ensures IsSpace(c) <==>
            || c as int in {0x09, 0x0A, 0x0B, 0x0C, 0x0D, 0x20, 0x85, 0xA0, 0x1680, 0x2028, 0x2029, 0x202F, 0x205F,
                            0x3000}
            || 0x2000 <= c as int <= 0x200A
  {
  }

  /** The bytes of a code point. */
  lemma CharBytesAre(c: char)
    ensures CharBytes(c) == 1 <==> c as int <= 0x7F
    ensures CharBytes(c) == 2 <==> 0x80 <= c as int <= 0x7FF
    ensures CharBytes(c) == 3 <==> 0x800 <= c as int <= 0xFFFF
    ensures CharBytes(c) == 4 <==> 0x1_0000 <= c as int
  {
  }

  /** The bytes of a text are those of its parts. */
  lemma {:induction false} ByteLenAdds(s: string, t: string)
    ensures ByteLen("") == 0 && ByteLen(s + t) == ByteLen(s) + ByteLen(t)
  {
    if s == "" {
      assert s + t == t;
    } else {
      ByteLenAdds(s[1..], t);
      assert (s + t)[1..] == s[1..] + t;
    }
  }

  /** Trimming takes the space around a text and nothing of the text. */
  lemma {:induction false} TrimTakesTheSpace(before: string, s: string, after: string)
    requires Trimmed(s) && s != ""
    requires (forall c :: c in before ==> IsSpace(c)) && (forall c :: c in after ==> IsSpace(c))
    ensures Trim(before + s + after) == s
    decreases |before| + |after|
  {
    var all := before + s + after;
    if before != "" {
      assert all[0] == before[0] && all[1..] == before[1..] + s + after;
      TrimTakesTheSpace(before[1..], s, after);
    } else if after != "" {
      assert all == s + after;
      TrimRightTakes(s, after);
    } else {
      assert all == s;
      TrimFixpoint(s);
    }
  }

  lemma {:induction false} TrimRightTakes(s: string, after: string)
    requires Trimmed(s) && s != "" && forall c :: c in after ==> IsSpace(c)
    ensures TrimRight(s + after) == s
  {
    if after == "" {
      assert s + after == s;
    } else {
      var n := |after| - 1;
      assert (s + after)[..|s + after| - 1] == s + after[..n];
      TrimRightTakes(s, after[..n]);
    }
  }

  /** A text of nothing but space trims to nothing. */
  lemma {:induction false} BlankTrims(s: string)
    requires forall c :: c in s ==> IsSpace(c)
    ensures Trim(s) == ""
  {
    if s != "" {
      BlankTrims(s[1..]);
    }
  }

  lemma {:induction false} TrimLeftStartsClean(s: string)
    ensures TrimLeft(s) == [] || !IsSpace(TrimLeft(s)[0])
    ensures TrimLeft(s) != [] ==> s[|s| - 1] == TrimLeft(s)[|TrimLeft(s)| - 1]
    ensures |TrimLeft(s)| <= |s|
    ensures forall c :: c in TrimLeft(s) ==> c in s
  {
    if s != [] && IsSpace(s[0]) {
      TrimLeftStartsClean(s[1..]);
    }
  }

  lemma {:induction false} TrimRightEndsClean(s: string)
    ensures TrimRight(s) == [] || !IsSpace(TrimRight(s)[|TrimRight(s)| - 1])
    ensures TrimRight(s) <= s
  {
    if s != [] && IsSpace(s[|s| - 1]) {
      TrimRightEndsClean(s[..|s| - 1]);
    }
  }

  /** The result of a trim is trimmed, and only trimmed strings are left alone. */
  lemma TrimFixpoint(s: string)
    ensures Trimmed(Trim(s))
    ensures Trim(s) == s <==> Trimmed(s)
    ensures forall c :: c in Trim(s) ==> c in s
  {
    TrimLeftStartsClean(s);
    TrimRightEndsClean(TrimLeft(s));
    if Trim(s) != [] {
      assert Trim(s)[0] == TrimLeft(s)[0];
    }
  }
}
