/** The three string normalisations the scripts apply to sheet headers and nation names:
    `str.title`, `str.lower` and `str.strip`. Only ASCII letters are treated as cased and
    only ASCII whitespace as space; every other character is left untouched. */
module Text {
  import Sequences

  predicate IsUpper(c: char) { 'A' <= c <= 'Z' }
  predicate IsLower(c: char) { 'a' <= c <= 'z' }
  predicate IsCased(c: char) { IsUpper(c) || IsLower(c) }

  function ToLower(c: char): (d: char)
    ensures IsCased(d) == IsCased(c) && !IsUpper(d)
  {
    if IsUpper(c) then (c as int + 32) as char else c
  }

  function ToUpper(c: char): (d: char)
    ensures IsCased(d) == IsCased(c) && !IsLower(d)
  {
    if IsLower(c) then (c as int - 32) as char else c
  }

  lemma ToLowerIdempotent(c: char)
    ensures ToLower(ToLower(c)) == ToLower(c)
  {
  }

  lemma ToUpperIdempotent(c: char)
    ensures ToUpper(ToUpper(c)) == ToUpper(c)
  {
  }

  lemma ToLowerOfUpper(c: char)
    ensures ToLower(ToUpper(c)) == ToLower(c)
  {
  }

  lemma ToUpperOfLower(c: char)
    ensures ToUpper(ToLower(c)) == ToUpper(c)
  {
  }

  /** `str.lower`. */
  function Lower(s: string): (r: string)
    ensures |r| == |s|
    ensures forall i :: 0 <= i < |s| ==> r[i] == ToLower(s[i])
  {
    seq(|s|, i requires 0 <= i < |s| => ToLower(s[i]))
  }

  /** Lower-casing leaves no upper-case letter, and lower-casing again changes nothing. */
  lemma LowerNormalises(s: string)
    ensures forall i :: 0 <= i < |s| ==> !IsUpper(Lower(s)[i])
    ensures Lower(Lower(s)) == Lower(s)
  {
    forall i | 0 <= i < |s|
      ensures Lower(Lower(s))[i] == Lower(s)[i]
    {
      ToLowerIdempotent(s[i]);
    }
  }

  /** `str.title` from a position whose predecessor is cased (`afterCased`) or not:
      a cased letter is upper-cased when it starts a word and lower-cased otherwise. */
  function TitleFrom(s: string, afterCased: bool): (r: string)
    ensures |r| == |s|
  {
    if |s| == 0 then ""
    else
      var c := if afterCased then ToLower(s[0]) else ToUpper(s[0]);
      [c] + TitleFrom(s[1..], IsCased(s[0]))
  }

  /** `str.title`: "BRAZIL" and "brazil" both become "Brazil". */
  function Title(s: string): (r: string)
    ensures |r| == |s|
  {
    TitleFrom(s, false)
  }

  lemma {:induction false} TitleFromIdempotent(s: string, afterCased: bool)
    ensures TitleFrom(TitleFrom(s, afterCased), afterCased) == TitleFrom(s, afterCased)
    decreases |s|
  {
    if |s| > 0 {
      var t := TitleFrom(s, afterCased);
      assert t[1..] == TitleFrom(s[1..], IsCased(s[0]));
      assert IsCased(t[0]) == IsCased(s[0]);
      TitleFromIdempotent(s[1..], IsCased(s[0]));
      if afterCased {
        ToLowerIdempotent(s[0]);
      } else {
        ToUpperIdempotent(s[0]);
      }
    }
  }

  /** Title-casing a nation name twice is the same as once, so normalised names are stable. */
  lemma TitleIdempotent(s: string)
    ensures Title(Title(s)) == Title(s)
  {
    TitleFromIdempotent(s, false);
  }

  /** Title-casing ignores the case the name was typed in: "BRAZIL", "brazil" and "Brazil" agree. */
  lemma {:induction false} TitleIgnoresCase(s: string, t: string, afterCased: bool)
    requires |s| == |t|
    requires forall i :: 0 <= i < |s| ==> ToLower(s[i]) == ToLower(t[i])
    ensures TitleFrom(s, afterCased) == TitleFrom(t, afterCased)
    decreases |s|
  {
    if |s| > 0 {
      assert IsCased(s[0]) == IsCased(t[0]) by {
        assert IsCased(ToLower(s[0])) == IsCased(ToLower(t[0]));
      }
      ToUpperOfLower(s[0]);
      ToUpperOfLower(t[0]);
      TitleIgnoresCase(s[1..], t[1..], IsCased(s[0]));
    }
  }

  predicate IsSpace(c: char) {
    c == ' ' || c == '\t' || c == '\n' || c == '\r' || c as int == 11 || c as int == 12
    || 28 <= c as int <= 31
  }

  /** Neither end of `s` is whitespace. */
  predicate Stripped(s: string) {
    |s| > 0 ==> !IsSpace(s[0]) && !IsSpace(s[|s| - 1])
  }

  function TrimStart(s: string): (r: string)
    ensures |r| <= |s| && r == s[|s| - |r|..]
    ensures forall i :: 0 <= i < |s| - |r| ==> IsSpace(s[i])
    ensures |r| > 0 ==> !IsSpace(r[0])
  {
    if |s| > 0 && IsSpace(s[0]) then TrimStart(s[1..]) else s
  }

  function TrimEnd(s: string): (r: string)
    ensures |r| <= |s| && r == s[..|r|]
    ensures forall i :: |r| <= i < |s| ==> IsSpace(s[i])
    ensures |r| > 0 ==> !IsSpace(r[|r| - 1])
  {
    if |s| > 0 && IsSpace(s[|s| - 1]) then TrimEnd(s[..|s| - 1]) else s
  }

  /** `str.strip`: `r` is `s` with its leading and trailing whitespace, and nothing else, removed. */
  function Strip(s: string): (r: string)
    ensures exists k :: 0 <= k <= |s| - |r| && r <= s[k..]
                        && (forall i :: 0 <= i < k ==> IsSpace(s[i]))
                        && (forall i :: k + |r| <= i < |s| ==> IsSpace(s[i]))
    ensures Stripped(r)
  {
    var r := TrimEnd(TrimStart(s));
    StripBounds(s);
    r
  }

  /** The witness for `Strip`'s contract: the leading whitespace is what `TrimStart` drops. */
  lemma StripBounds(s: string)
    ensures var r := TrimEnd(TrimStart(s));
            var k := |s| - |TrimStart(s)|;
            && 0 <= k <= |s| - |r| && r <= s[k..]
            && (forall i :: 0 <= i < k ==> IsSpace(s[i]))
            && (forall i :: k + |r| <= i < |s| ==> IsSpace(s[i]))
            && Stripped(r)
  {
    var t := TrimStart(s);
    var r := TrimEnd(t);
    var k := |s| - |t|;
    assert t == s[k..];
    forall i | k + |r| <= i < |s|
      ensures IsSpace(s[i])
    {
      assert s[i] == t[i - k];
    }
    assert |r| > 0 ==> r[0] == t[0];
  }

  /** Stripping twice is the same as stripping once. */
  lemma StripIdempotent(s: string)
    ensures Strip(Strip(s)) == Strip(s)
  {
    var r := Strip(s);
    if |r| > 0 {
      assert TrimStart(r) == r;
      assert TrimEnd(r) == r;
    }
  }
}
