/** Edge identifiers: which names address an edge type, and the sanitizer that suggests one. */
module EdgeNames {

  predicate IsIdentChar(c: char) {
    'a' <= c <= 'z' || 'A' <= c <= 'Z' || '0' <= c <= '9' || c == '_'
  }

  predicate AllIdent(s: string) {
    forall i :: 0 <= i < |s| ==> IsIdentChar(s[i])
  }

  /** `isAddressableEdgeName`. */
  predicate IsAddressable(name: string) {
    name != "" && name[|name| - 1] != '_' && AllIdent(name)
  }

  /** `isAddressableEdgeName`, as the loop it is. */
  method CheckAddressable(name: string) returns (ok: bool)
    ensures ok == IsAddressable(name)
  {
    if name == "" || name[|name| - 1] == '_' {
      return false;
    }
    for i := 0 to |name|
      invariant AllIdent(name[..i])
    {
      if !IsIdentChar(name[i]) {
        return false;
      }
    }
    return true;
  }

  /** A letter, a digit or an underscore, of ASCII. */
  predicate IsWordChar(c: char) {
    var i := c as int;
    0x61 <= i <= 0x7A || 0x41 <= i <= 0x5A || 0x30 <= i <= 0x39 || i == 0x5F
  }

  /** A name addresses an edge if it is a word of ASCII letters, digits and underscores that does not end in one. */
  lemma AddressableNamesAre(name: string)
    ensures IsAddressable(name) <==>
            && name != "" && name[|name| - 1] != '_' && forall i :: 0 <= i < |name| ==> IsWordChar(name[i])
  {
    assert forall c :: IsIdentChar(c) <==> IsWordChar(c);
  }

  function TrimUnderscores(s: string): string {
    if s != "" && s[|s| - 1] == '_' then TrimUnderscores(s[..|s| - 1]) else s
  }

  function Replaced(name: string): string {
    seq(|name|, i requires 0 <= i < |name| => if IsIdentChar(name[i]) then name[i] else '_')
  }

  function Sanitized(name: string): string {
    TrimUnderscores(Replaced(name))
  }

  /** `sanitizeEdgeName`. */
  method SanitizeEdgeName(name: string) returns (out: string)
    ensures out == Sanitized(name)
  {
    out := "";
    for i := 0 to |name|
      invariant out == Replaced(name[..i])
    {
      out := out + [if IsIdentChar(name[i]) then name[i] else '_'];
    }
    assert name[..|name|] == name;
    while out != "" && out[|out| - 1] == '_'
      invariant TrimUnderscores(out) == Sanitized(name)
      decreases |out|
    {
      out := out[..|out| - 1];
    }
  }

  lemma {:induction false} TrimUnderscoresMeaning(s: string)
    ensures TrimUnderscores(s) <= s
    ensures TrimUnderscores(s) == "" || TrimUnderscores(s)[|TrimUnderscores(s)| - 1] != '_'
    ensures forall i :: |TrimUnderscores(s)| <= i < |s| ==> s[i] == '_'
  {
    if s != "" && s[|s| - 1] == '_' {
      TrimUnderscoresMeaning(s[..|s| - 1]);
    }
  }

  /**
   The suggestion keeps word characters where they are and puts underscores
   elsewhere; it only drops underscores at the end.
   */
  lemma SanitizedIs(name: string)
    ensures |Sanitized(name)| <= |name|
    ensures forall i :: 0 <= i < |Sanitized(name)| ==>
                          Sanitized(name)[i] == if IsWordChar(name[i]) then name[i] else '_'
    ensures forall i :: |Sanitized(name)| <= i < |name| ==> !IsWordChar(name[i]) || name[i] == '_'
    ensures Sanitized(name) == "" || Sanitized(name)[|Sanitized(name)| - 1] != '_'
  {
    TrimUnderscoresMeaning(Replaced(name));
    assert forall c :: IsIdentChar(c) <==> IsWordChar(c);
    assert forall i :: 0 <= i < |name| ==> Replaced(name)[i] == if IsIdentChar(name[i]) then name[i] else '_';
  }

  /** The suggestion has a legal form, or there is none. */
  lemma SanitizedIsEmptyOrAddressable(name: string)
    ensures Sanitized(name) == "" || IsAddressable(Sanitized(name))
    ensures |Sanitized(name)| <= |name|
  {
    TrimUnderscoresMeaning(Replaced(name));
    assert AllIdent(Replaced(name));
  }

  /** There is no legal form exactly when nothing but underscores would be left. */
  lemma NoLegalForm(name: string)
    ensures Sanitized(name) == "" <==> forall i :: 0 <= i < |name| ==> !IsIdentChar(name[i]) || name[i] == '_'
  {
    TrimUnderscoresMeaning(Replaced(name));
    var s := Sanitized(name);
    if s != "" {
      assert Replaced(name)[|s| - 1] != '_';
    } else {
      forall i | 0 <= i < |name| ensures !IsIdentChar(name[i]) || name[i] == '_' {
        assert Replaced(name)[i] == '_';
      }
    }
  }

  /** A name is addressable if and only if it is a non-empty fixed point of the sanitizer. */
  lemma AddressableIffFixedPoint(name: string)
    ensures IsAddressable(name) <==> name != "" && Sanitized(name) == name
  {
    if IsAddressable(name) {
      assert Replaced(name) == name;
    } else if name != "" && Sanitized(name) == name {
      SanitizedIsEmptyOrAddressable(name);
    }
  }

  /** Sanitizing twice is sanitizing once. */
  lemma SanitizeIsIdempotent(name: string)
    ensures Sanitized(Sanitized(name)) == Sanitized(name)
  {
    SanitizedIsEmptyOrAddressable(name);
    AddressableIffFixedPoint(Sanitized(name));
  }
}
