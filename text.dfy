/** The string operations the handlers and schemas apply: JavaScript's
    `trim()`, `toUpperCase()` on the ASCII letters, and the code-point order
    in which the database sorts string keys. */
module Text {

  /** The characters `String.prototype.trim` removes: white space (tab,
      vertical tab, form feed, space, no-break space, byte-order mark and the
      other space separators) and the line terminators. */
  predicate IsSpace(c: char)
  {
    || c == '\t' || c == '\n' || c == '\U{B}' || c == '\U{C}' || c == '\r'
    || c == ' ' || c == '\U{A0}' || c == '\U{1680}'
    || ('\U{2000}' <= c <= '\U{200A}')
    || c == '\U{2028}' || c == '\U{2029}' || c == '\U{202F}' || c == '\U{205F}'
    || c == '\U{3000}' || c == '\U{FEFF}'
  }

  /** `s` neither starts nor ends with white space. */
  predicate Trimmed(s: string)
  {
    s == [] || (!IsSpace(s[0]) && !IsSpace(s[|s| - 1]))
  }

  function TrimStart(s: string): (r: string)
    ensures r == [] || !IsSpace(r[0])
    ensures |r| <= |s| && r == s[|s| - |r|..]
    ensures forall j | 0 <= j < |s| - |r| :: IsSpace(s[j])
  {
    if s != [] && IsSpace(s[0]) then TrimStart(s[1..]) else s
  }

  function TrimEnd(s: string): (r: string)
    ensures r == [] || !IsSpace(r[|r| - 1])
    ensures |r| <= |s| && r == s[..|r|]
    ensures forall j | |r| <= j < |s| :: IsSpace(s[j])
  {
    if s != [] && IsSpace(s[|s| - 1]) then TrimEnd(s[..|s| - 1]) else s
  }

  /** Every character of `s` outside `s[i..j]` is white space. */
  predicate SpaceOutside(s: string, i: int, j: int)
    requires 0 <= i <= j <= |s|
  {
    && (forall k | 0 <= k < i :: IsSpace(s[k]))
    && (forall k | j <= k < |s| :: IsSpace(s[k]))
  }

  /** `s.trim()`: the longest inner slice without white space at either end;
      everything cut off is white space. */
  function Trim(s: string): (r: string)
    ensures Trimmed(r)
    ensures exists i, j | 0 <= i <= j <= |s| :: r == s[i..j] && SpaceOutside(s, i, j)
  {
    var a := TrimStart(s);
    var r := TrimEnd(a);
    TrimCutsOnlySpace(s, a, r);
    assert r != [] ==> r[0] == a[0];
    r
  }

  /** Cutting white space off the front and then off the back of `s` leaves
      an inner slice with white space only outside it. */
  lemma TrimCutsOnlySpace(s: string, a: string, r: string)
    requires |a| <= |s| && a == s[|s| - |a|..] && forall k | 0 <= k < |s| - |a| :: IsSpace(s[k])
    requires |r| <= |a| && r == a[..|r|] && forall k | |r| <= k < |a| :: IsSpace(a[k])
    ensures SpaceOutside(s, |s| - |a|, |s| - |a| + |r|)
    ensures r == s[|s| - |a|..|s| - |a| + |r|]
  {
    var i := |s| - |a|;
    assert s[i..i + |r|] == s[i..][..|r|];
    forall k | i + |r| <= k < |s| ensures IsSpace(s[k]) {
      assert s[k] == a[k - i];
    }
  }

  lemma TrimStartOfTrimmed(s: string)
    requires s == [] || !IsSpace(s[0])
    ensures TrimStart(s) == s
  {
  }

  lemma TrimEndOfTrimmed(s: string)
    requires s == [] || !IsSpace(s[|s| - 1])
    ensures TrimEnd(s) == s
  {
  }

  /** Trimming changes nothing on a string that is already trimmed. */
  lemma TrimOfTrimmed(s: string)
    requires Trimmed(s)
    ensures Trim(s) == s
  {
    TrimStartOfTrimmed(s);
    TrimEndOfTrimmed(s);
  }

  /** `trim()` is idempotent, so a stored, trimmed value is left alone by the setter. */
  lemma TrimIdempotent(s: string)
    ensures Trim(Trim(s)) == Trim(s)
  {
    TrimOfTrimmed(Trim(s));
  }

  /** `toUpperCase()` on one character; letters outside ASCII are kept. */
  function UpperChar(c: char): char
  {
    if 'a' <= c <= 'z' then (c as int - 32) as char else c
  }

  function Upper(s: string): (r: string)
    ensures |r| == |s| && forall i | 0 <= i < |s| :: r[i] == UpperChar(s[i])
  {
    if s == [] then [] else [UpperChar(s[0])] + Upper(s[1..])
  }

  /** Nothing in an upper-cased string is a lower-case ASCII letter. */
  lemma UpperHasNoLowerCase(s: string)
    ensures forall i | 0 <= i < |Upper(s)| :: !('a' <= Upper(s)[i] <= 'z')
  {
  }

  lemma UpperIdempotent(s: string)
    ensures Upper(Upper(s)) == Upper(s)
  {
  }

  /** Upper-casing keeps a trimmed string trimmed: it maps white space to itself
      and every other character to a character that is not white space. */
  lemma UpperKeepsTrimmed(s: string)
    requires Trimmed(s)
    ensures Trimmed(Upper(s))
  {
  }

  /** Upper-casing neither creates nor removes white space. */
  lemma UpperCharKeepsSpace(c: char)
    ensures IsSpace(UpperChar(c)) <==> IsSpace(c)
  {
  }

  lemma {:induction false} UpperCommutesWithTrimStart(s: string)
    ensures TrimStart(Upper(s)) == Upper(TrimStart(s))
  {
    if s != [] {
      UpperCharKeepsSpace(s[0]);
      if IsSpace(s[0]) {
        assert Upper(s)[1..] == Upper(s[1..]);
        UpperCommutesWithTrimStart(s[1..]);
      }
    }
  }

  lemma {:induction false} UpperCommutesWithTrimEnd(s: string)
    ensures TrimEnd(Upper(s)) == Upper(TrimEnd(s))
  {
    if s != [] {
      UpperCharKeepsSpace(s[|s| - 1]);
      if IsSpace(s[|s| - 1]) {
        assert Upper(s)[..|s| - 1] == Upper(s[..|s| - 1]);
        UpperCommutesWithTrimEnd(s[..|s| - 1]);
      }
    }
  }

  /** Trimming and upper-casing may be applied in either order. */
  lemma UpperCommutesWithTrim(s: string)
    ensures Trim(Upper(s)) == Upper(Trim(s))
  {
    UpperCommutesWithTrimStart(s);
    UpperCommutesWithTrimEnd(TrimStart(s));
  }

  // ---------------------------------------------------------------------
  // Ordering of strings

  /** `a` sorts before or with `b` in code-point lexicographic order, as the
      database orders string keys. */
  predicate StrLe(a: string, b: string)
  {
    a == [] || (b != [] && (a[0] < b[0] || (a[0] == b[0] && StrLe(a[1..], b[1..]))))
  }

  lemma {:induction false} StrLeTotal(a: string, b: string)
    ensures StrLe(a, b) || StrLe(b, a)
  {
    if a != [] && b != [] && a[0] == b[0] {
      StrLeTotal(a[1..], b[1..]);
    }
  }

  lemma {:induction false} StrLeAntisymmetric(a: string, b: string)
    requires StrLe(a, b) && StrLe(b, a)
    ensures a == b
  {
    if a != [] {
      StrLeAntisymmetric(a[1..], b[1..]);
      assert a == [a[0]] + a[1..] && b == [b[0]] + b[1..];
    }
  }

  lemma {:induction false} StrLeTransitive(a: string, b: string, c: string)
    requires StrLe(a, b) && StrLe(b, c)
    ensures StrLe(a, c)
  {
    if a != [] && a[0] == b[0] && b[0] == c[0] {
      StrLeTransitive(a[1..], b[1..], c[1..]);
    }
  }
}
