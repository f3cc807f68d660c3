/** String helpers with the meaning JavaScript gives them where the dashboard and the
    login form use them: `String.prototype.trim` and an upper-cased initial pair. */
module Text {

  /** The characters `trim` strips: ECMAScript WhiteSpace and LineTerminator. */
  predicate IsSpace(c: char) {
    c == '\t' || c == '\n' || c == '\U{000B}' || c == '\U{000C}' || c == '\r' || c == ' '
    || c == '\U{00A0}' || c == '\U{1680}' || ('\U{2000}' <= c <= '\U{200A}')
    || c == '\U{2028}' || c == '\U{2029}' || c == '\U{202F}' || c == '\U{205F}'
    || c == '\U{3000}' || c == '\U{FEFF}'
  }

  /** Neither end of `s` is a space: what `trim` leaves. */
  predicate Unpadded(s: string) {
    s == [] || (!IsSpace(s[0]) && !IsSpace(s[|s| - 1]))
  }

  predicate AllSpace(s: string) {
    forall i :: 0 <= i < |s| ==> IsSpace(s[i])
  }

  function TrimStart(s: string): (r: string)
    ensures |r| <= |s| && r == s[|s| - |r|..]
    ensures r == [] || !IsSpace(r[0])
    ensures AllSpace(s[..|s| - |r|])
    decreases |s|
  {
    if |s| > 0 && IsSpace(s[0]) then TrimStart(s[1..]) else s
  }

  function TrimEnd(s: string): (r: string)
    ensures |r| <= |s| && r == s[..|r|]
    ensures r == [] || !IsSpace(r[|r| - 1])
    ensures AllSpace(s[|r|..])
    decreases |s|
  {
    if |s| > 0 && IsSpace(s[|s| - 1]) then TrimEnd(s[..|s| - 1]) else s
  }

  /** `String.prototype.trim`. */
  function Trim(s: string): (r: string)
    ensures |r| <= |s|
    ensures Unpadded(r)
  {
    var t := TrimStart(s);
    var r := TrimEnd(t);
    assert r != [] ==> r[0] == t[0];
    r
  }

  lemma {:induction false} TrimStartPadded(a: string, c: string)
    requires AllSpace(a) && (c == [] || !IsSpace(c[0]))
    ensures TrimStart(a + c) == c
    decreases |a|
  {
    if |a| > 0 {
      assert (a + c)[1..] == a[1..] + c;
      TrimStartPadded(a[1..], c);
    } else {
      assert a + c == c;
    }
  }

  lemma {:induction false} TrimEndPadded(c: string, b: string)
    requires AllSpace(b) && (c == [] || !IsSpace(c[|c| - 1]))
    ensures TrimEnd(c + b) == c
    decreases |b|
  {
    if |b| > 0 {
      assert (c + b)[..|c + b| - 1] == c + b[..|b| - 1];
      TrimEndPadded(c, b[..|b| - 1]);
    } else {
      assert c + b == c;
    }
  }

  /** `trim` removes exactly the surrounding spaces: a string with no space at either
      end, padded by spaces on both sides, trims back to itself. */
  lemma TrimOfPadded(a: string, c: string, b: string)
    requires AllSpace(a) && AllSpace(b) && Unpadded(c)
    ensures Trim(a + c + b) == c
  {
    if c == [] {
      assert a + c + b == a + b;
      assert AllSpace(a + b);
      TrimStartPadded(a + b, []);
      assert a + b + [] == a + b;
    } else {
      assert a + c + b == a + (c + b);
      TrimStartPadded(a, c + b);
      TrimEndPadded(c, b);
    }
  }

  lemma TrimIdempotent(s: string)
    ensures Trim(Trim(s)) == Trim(s)
  {
    var t := Trim(s);
    TrimOfPadded([], t, []);
    assert [] + t + [] == t;
  }

  /** A string trims to empty exactly when every character is a space: the
      "required field is blank" test. */
  lemma TrimEmptyIff(s: string)
    ensures Trim(s) == [] <==> AllSpace(s)
  {
    if AllSpace(s) {
      TrimOfPadded(s, [], []);
      assert s + [] + [] == s;
    } else {
      assert TrimStart(s) != [] by {
        assert s[..|s|] == s;
      }
    }
  }

  predicate IsLowerAscii(c: char) { 'a' <= c <= 'z' }

  predicate IsUpperAscii(c: char) { 'A' <= c <= 'Z' }

  /** `toUpperCase` on one character: a..z become the capital at the same place in the
      alphabet, and every other character is kept as it is. */
  function Upper(c: char): (r: char)
    ensures IsLowerAscii(c) ==> IsUpperAscii(r) && r as int - 'A' as int == c as int - 'a' as int
    ensures !IsLowerAscii(c) ==> r == c
  {
    if IsLowerAscii(c) then (c as int - 32) as char else c
  }

  /** `(first[0] + last[0]).toUpperCase()`: the avatar initials of a name. */
  function Initials(first: string, last: string): (r: string)
    requires first != [] && last != []
    ensures |r| == 2 && !IsLowerAscii(r[0]) && !IsLowerAscii(r[1])
    ensures IsLowerAscii(first[0]) ==>
      IsUpperAscii(r[0]) && r[0] as int - 'A' as int == first[0] as int - 'a' as int
    ensures IsLowerAscii(last[0]) ==>
      IsUpperAscii(r[1]) && r[1] as int - 'A' as int == last[0] as int - 'a' as int
    ensures !IsLowerAscii(first[0]) ==> r[0] == first[0]
    ensures !IsLowerAscii(last[0]) ==> r[1] == last[0]
  {
    [Upper(first[0]), Upper(last[0])]
  }

  /** How many UTF-16 code units JavaScript stores for a character: two for one outside
      the Basic Multilingual Plane (a surrogate pair), one otherwise. */
  function Utf16Units(c: char): nat {
    if c as int < 0x1_0000 then 1 else 2
  }

  /** `s.length` in JavaScript, which counts UTF-16 code units, not characters. */
  function Utf16Length(s: string): (n: nat)
    ensures |s| <= n <= 2 * |s|
    decreases |s|
  {
    if s == [] then 0 else Utf16Units(s[0]) + Utf16Length(s[1..])
  }

  /** The length of a concatenation is the sum of the lengths. */
  lemma {:induction false} Utf16LengthAppend(s: string, t: string)
    ensures Utf16Length(s + t) == Utf16Length(s) + Utf16Length(t)
    decreases |s|
  {
    if s != [] {
      assert (s + t)[1..] == s[1..] + t;
      Utf16LengthAppend(s[1..], t);
    } else {
      assert s + t == t;
    }
  }

  /** On text inside the Basic Multilingual Plane the JavaScript length is the number of
      characters. */
  lemma {:induction false} Utf16LengthOfBmp(s: string)
    requires forall i :: 0 <= i < |s| ==> s[i] as int < 0x1_0000
    ensures Utf16Length(s) == |s|
    decreases |s|
  {
    if s != [] {
      Utf16LengthOfBmp(s[1..]);
    }
  }

  /** Four emoji are four characters but eight code units, so `length` sees eight. */
  lemma Utf16LengthOfEmoji()
    ensures |"\U{1F600}\U{1F600}\U{1F600}\U{1F600}"| == 4
    ensures Utf16Length("\U{1F600}\U{1F600}\U{1F600}\U{1F600}") == 8
  {
    var s := "\U{1F600}\U{1F600}\U{1F600}\U{1F600}";
    assert s[1..][1..][1..][1..] == [];
  }
}
