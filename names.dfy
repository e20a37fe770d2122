/** Name normalisation: the lookup key of an actor (Graph.normalizeName). */
module Names {

  /** Java's String.trim() removes leading and trailing characters whose code is at most U+0020. */
  predicate IsBlank(c: char) {
    c <= ' '
  }

  /** The two characters the regular expression ['"] matches. */
  predicate IsQuote(c: char) {
    c == '\'' || c == '"'
  }

  predicate NoQuotes(s: string) {
    forall i :: 0 <= i < |s| ==> !IsQuote(s[i])
  }

  /** Neither end of s is a blank, so trim leaves it alone. */
  predicate NoOuterBlanks(s: string) {
    s == [] || (!IsBlank(s[0]) && !IsBlank(s[|s| - 1]))
  }

  /** Drops the blanks at the front of s; what is left starts with a non-blank (see TrimStartDropsBlanks). */
  function TrimStart(s: string): (r: string)
    ensures |r| <= |s|
    ensures |r| == |s| ==> r == s
    ensures r == [] || !IsBlank(r[0])
  {
    if s != [] && IsBlank(s[0]) then TrimStart(s[1..]) else s
  }

  /** Drops the blanks at the back of s; what is left ends with a non-blank (see TrimEndDropsBlanks). */
  function TrimEnd(s: string): (r: string)
    ensures |r| <= |s|
    ensures |r| == |s| ==> r == s
    ensures r == [] || !IsBlank(r[|r| - 1])
    ensures r != [] ==> r[0] == s[0]
  {
    if s != [] && IsBlank(s[|s| - 1]) then TrimEnd(s[..|s| - 1]) else s
  }

  /** TrimStart keeps a suffix of s and drops only blanks. */
  lemma {:induction false} TrimStartDropsBlanks(s: string)
    ensures var r := TrimStart(s);
      r == s[|s| - |r|..] && forall i :: 0 <= i < |s| - |r| ==> IsBlank(s[i])
  {
    if s != [] && IsBlank(s[0]) {
      TrimStartDropsBlanks(s[1..]);
    }
  }

  /** TrimEnd keeps a prefix of s and drops only blanks. */
  lemma {:induction false} TrimEndDropsBlanks(s: string)
    ensures var r := TrimEnd(s);
      r == s[..|r|] && forall i :: |r| <= i < |s| ==> IsBlank(s[i])
  {
    if s != [] && IsBlank(s[|s| - 1]) {
      TrimEndDropsBlanks(s[..|s| - 1]);
    }
  }

  /** Java's String.trim(). */
  function Trim(s: string): (r: string)
    ensures |r| <= |s|
    ensures NoOuterBlanks(r)
  {
    TrimEnd(TrimStart(s))
  }

  /** s with every apostrophe and double quote removed (replaceAll("['\"]", "")). */
  function StripQuotes(s: string): (r: string)
    ensures |r| <= |s|
    ensures NoQuotes(r)
    ensures NoQuotes(s) ==> r == s
  {
    if s == [] then []
    else (if IsQuote(s[0]) then [] else [s[0]]) + StripQuotes(s[1..])
  }

  /** Graph.normalizeName: trim first, then strip the quote characters. */
  function NormalizeName(name: string): (r: string)
    ensures NoQuotes(r)
    ensures |r| <= |name|
  {
    StripQuotes(Trim(name))
  }

  /** Stripping removes the quote characters and no other character. */
  lemma {:induction false} StripQuotesKeepsOthers(s: string)
    ensures forall c :: c in StripQuotes(s) <==> c in s && !IsQuote(c)
  {
    if s != [] {
      StripQuotesKeepsOthers(s[1..]);
      assert s == [s[0]] + s[1..];
    }
  }

  /** A single character is dropped if it is a quote and kept otherwise. */
  lemma StripOne(c: char)
    ensures StripQuotes([c]) == if IsQuote(c) then [] else [c]
  {
    assert [c][1..] == [];
  }

  /** Stripping a string that starts with c: c's own fate, then the rest stripped. */
  lemma StripCons(c: char, s: string)
    ensures StripQuotes([c] + s) == StripQuotes([c]) + StripQuotes(s)
  {
    assert ([c] + s)[0] == c && ([c] + s)[1..] == s;
    StripOne(c);
  }

  /** One step of StripConcat: putting c in front of a decomposed string keeps it decomposed. */
  lemma StripConsStep(c: char, a: string, b: string)
    requires StripQuotes(a + b) == StripQuotes(a) + StripQuotes(b)
    ensures StripQuotes([c] + a + b) == StripQuotes([c] + a) + StripQuotes(b)
  {
    assert [c] + a + b == [c] + (a + b);
    StripCons(c, a + b);
    StripCons(c, a);
  }

  /**
   * Stripping works piece by piece: the kept characters stay in their order and
   * keep their number, so with StripOne this pins StripQuotes down completely.
   */
  lemma {:induction false} StripConcat(a: string, b: string)
    ensures StripQuotes(a + b) == StripQuotes(a) + StripQuotes(b)
  {
    if a == [] {
      assert a + b == b;
    } else {
      StripConcat(a[1..], b);
      StripConsStep(a[0], a[1..], b);
      assert [a[0]] + a[1..] == a;
    }
  }

  /**
   * A key holds exactly the characters of the trimmed name other than quotes, in
   * their order: cutting the trimmed name anywhere, the key is the stripped left
   * part followed by the stripped right part.
   */
  lemma NormalizeKeepsOthers(name: string)
    ensures forall c :: c in NormalizeName(name) <==> c in Trim(name) && !IsQuote(c)
    ensures forall i :: 0 <= i <= |Trim(name)| ==>
      NormalizeName(name) == StripQuotes(Trim(name)[..i]) + StripQuotes(Trim(name)[i..])
  {
    var t := Trim(name);
    StripQuotesKeepsOthers(t);
    forall i | 0 <= i <= |t| ensures NormalizeName(name) == StripQuotes(t[..i]) + StripQuotes(t[i..]) {
      StripConcat(t[..i], t[i..]);
      assert t[..i] + t[i..] == t;
    }
  }

  /** The characters trim drops are exactly the blank ones at the two ends of s. */
  lemma {:induction false} TrimDropsOnlyOuterBlanks(s: string)
    ensures var r := Trim(s); var i := |s| - |TrimStart(s)|;
      i + |r| <= |s| && r == s[i..i + |r|] &&
      (forall k :: 0 <= k < i ==> IsBlank(s[k])) &&
      (forall k :: i + |r| <= k < |s| ==> IsBlank(s[k]))
  {
    var t := TrimStart(s);
    var i := |s| - |t|;
    var r := TrimEnd(t);
    TrimStartDropsBlanks(s);
    TrimEndDropsBlanks(t);
    forall k | i + |r| <= k < |s| ensures IsBlank(s[k]) {
      assert s[k] == t[k - i];
    }
  }

  /** Trimming twice is trimming once. */
  lemma TrimIdempotent(s: string)
    ensures Trim(Trim(s)) == Trim(s)
  {
    var r := Trim(s);
    if r != [] {
      assert TrimStart(r) == r;
      assert TrimEnd(r) == r;
    }
  }

  /** A string is its own key exactly when it has no quote characters and no blank at either end. */
  lemma NormalizeFixedPoint(s: string)
    ensures NormalizeName(s) == s <==> NoQuotes(s) && NoOuterBlanks(s)
  {
    if NoQuotes(s) && NoOuterBlanks(s) {
      if s != [] {
        assert TrimStart(s) == s;
        assert TrimEnd(s) == s;
      }
      assert Trim(s) == s;
    }
    if NormalizeName(s) == s {
      var t := Trim(s);
      assert |StripQuotes(t)| <= |t| <= |s|;
      assert |t| == |s|;
      assert |TrimStart(s)| == |s|;
      assert t == s;
    }
  }

  /** The normalisation is not idempotent: trimming runs before the quotes go, so a quote can shield a blank. */
  lemma NormalizeNotIdempotent()
    ensures NormalizeName("' x") == " x"
    ensures NormalizeName(" x") == "x"
  {
    QuoteShieldsBlank();
    BlankThenLetter();
  }

  lemma QuoteShieldsBlank()
    ensures Trim("' x") == "' x"
    ensures StripQuotes("' x") == " x"
  {
    var q, b, x := "' x", " x", "x";
    assert q[1..] == b && b[1..] == x && x[1..] == [];
    assert StripQuotes(x) == x;
    assert StripQuotes(b) == [' '] + StripQuotes(x);
    assert TrimStart(q) == q;
    assert TrimEnd(q) == q;
  }

  lemma BlankThenLetter()
    ensures Trim(" x") == "x"
    ensures StripQuotes("x") == "x"
  {
    var b, x := " x", "x";
    assert b[1..] == x && x[1..] == [];
    assert TrimStart(x) == x;
    assert TrimEnd(x) == x;
  }
}
