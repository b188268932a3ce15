/** The string operations the handlers apply to user input: JavaScript's
    `trim`, `toUpperCase`, `toLowerCase`, `includes` and `split`, and the
    comma-list parser built from them. */
module Text {

  /** JavaScript's WhiteSpace and LineTerminator characters, the set `trim` removes. */
  predicate IsSpace(c: char) {
    var n := c as int;
    (9 <= n <= 13) || n == 0x20 || n == 0xA0 || n == 0x1680 || (0x2000 <= n <= 0x200A)
    || n == 0x2028 || n == 0x2029 || n == 0x202F || n == 0x205F || n == 0x3000 || n == 0xFEFF
  }

  predicate AllSpace(s: string) {
    forall i :: 0 <= i < |s| ==> IsSpace(s[i])
  }

  /** `s` has no whitespace at either end. */
  predicate IsTrimmed(s: string) {
    s == [] || (!IsSpace(s[0]) && !IsSpace(s[|s| - 1]))
  }

  function TrimStart(s: string): (r: string)
    ensures |r| <= |s| && r == s[|s| - |r|..]
    ensures AllSpace(s[..|s| - |r|])
    ensures r == [] || !IsSpace(r[0])
  {
    if s != [] && IsSpace(s[0]) then
      var t := TrimStart(s[1..]);
      assert s[1..][..|s| - 1 - |t|] == s[1..|s| - |t|];
      t
    else s
  }

  function TrimEnd(s: string): (r: string)
    ensures |r| <= |s| && r == s[..|r|]
    ensures AllSpace(s[|r|..])
    ensures r == [] || !IsSpace(r[|r| - 1])
  {
    if s != [] && IsSpace(s[|s| - 1]) then
      var t := TrimEnd(s[..|s| - 1]);
      assert s[..|s| - 1][|t|..] == s[|t|..|s| - 1];
      assert s[|t|..] == s[|t|..|s| - 1] + [s[|s| - 1]];
      t
    else s
  }

  /** `String.prototype.trim`: the slice of `s` left after removing whitespace at both ends. */
  function Trim(s: string): (r: string)
    ensures IsTrimmed(r)
  {
    TrimEnd(TrimStart(s))
  }

  lemma SliceOfSuffix(s: string, a: nat, u: string, r: string)
    requires a <= |s| && u == s[a..] && |r| <= |u| && r == u[..|r|] && AllSpace(u[|r|..])
    ensures r == s[a..a + |r|] && AllSpace(s[a + |r|..])
  {
    assert u[|r|..] == s[a + |r|..];
  }

  /** The trim is a slice of `s` with only whitespace around it. */
  lemma TrimIsSlice(s: string)
    ensures var r := Trim(s);
      exists a :: 0 <= a <= |s| - |r| && r == s[a..a + |r|] && AllSpace(s[..a]) && AllSpace(s[a + |r|..])
  {
    var u := TrimStart(s);
    var r := TrimEnd(u);
    var a := |s| - |u|;
    SliceOfSuffix(s, a, u, r);
  }

  lemma {:induction false} TrimStartOfTrimmed(s: string)
    requires s == [] || !IsSpace(s[0])
    ensures TrimStart(s) == s
  {
  }

  /** Trimming twice is trimming once. */
  lemma TrimIdempotent(s: string)
    ensures Trim(Trim(s)) == Trim(s)
  {
    var t := Trim(s);
    assert TrimStart(t) == t;
    if t != [] {
      assert TrimEnd(t) == t;
    }
  }

  lemma AllSpaceJoin(x: string, y: string)
    requires AllSpace(x) && AllSpace(y)
    ensures AllSpace(x + y)
  {
    assert forall i :: 0 <= i < |x + y| ==> (x + y)[i] == if i < |x| then x[i] else y[i - |x|];
  }

  lemma TrimStartEmptyIffAllSpace(s: string)
    ensures TrimStart(s) == [] <==> AllSpace(s)
  {
    var u := TrimStart(s);
    assert u == [] ==> s[..|s|] == s;
    assert u != [] ==> u[0] == s[|s| - |u|];
  }

  lemma TrimEndEmptyIffAllSpace(u: string)
    ensures TrimEnd(u) == [] <==> AllSpace(u)
  {
    assert TrimEnd(u) == [] ==> u[0..] == u;
  }

  /** `!s.trim()` — the guard the handlers use for "nothing entered" — holds exactly when
      every character of `s` is whitespace. */
  lemma TrimEmptyIffAllSpace(s: string)
    ensures Trim(s) == [] <==> AllSpace(s)
  {
    var u := TrimStart(s);
    TrimStartEmptyIffAllSpace(s);
    TrimEndEmptyIffAllSpace(u);
    assert u != [] ==> !IsSpace(u[0]);
  }

  /** A trimmed string is its own trim. */
  lemma TrimOfTrimmed(s: string)
    requires IsTrimmed(s)
    ensures Trim(s) == s
  {
    TrimStartOfTrimmed(s);
  }

  lemma {:induction false} TrimStartSpacePrefix(p: string, s: string)
    requires AllSpace(p)
    ensures TrimStart(p + s) == TrimStart(s)
    decreases |p|
  {
    if p != [] {
      assert (p + s)[1..] == p[1..] + s;
      TrimStartSpacePrefix(p[1..], s);
    } else {
      assert p + s == s;
    }
  }

  lemma {:induction false} TrimEndSpaceSuffix(s: string, q: string)
    requires AllSpace(q)
    ensures TrimEnd(s + q) == TrimEnd(s)
    decreases |q|
  {
    if q != [] {
      assert (s + q)[..|s + q| - 1] == s + q[..|q| - 1];
      TrimEndSpaceSuffix(s, q[..|q| - 1]);
    } else {
      assert s + q == s;
    }
  }

  lemma {:induction false} TrimStartAppend(s: string, q: string)
    requires !AllSpace(s)
    ensures TrimStart(s + q) == TrimStart(s) + q
    decreases |s|
  {
    assert (s + q)[0] == s[0];
    if IsSpace(s[0]) {
      assert !AllSpace(s[1..]) by {
        assert forall i :: 1 <= i < |s| ==> s[1..][i - 1] == s[i];
      }
      assert (s + q)[1..] == s[1..] + q;
      TrimStartAppend(s[1..], q);
    }
  }

  /** Whitespace around a string does not change its trim. */
  lemma TrimPadding(p: string, s: string, q: string)
    requires AllSpace(p) && AllSpace(q)
    ensures Trim(p + s + q) == Trim(s)
  {
    assert p + s + q == p + (s + q);
    TrimStartSpacePrefix(p, s + q);
    TrimEmptyIffAllSpace(s);
    if AllSpace(s) {
      AllSpaceJoin(s, q);
      TrimStartEmptyIffAllSpace(s + q);
    } else {
      TrimStartAppend(s, q);
      TrimEndSpaceSuffix(TrimStart(s), q);
    }
  }

  /** Trimming only removes characters. */
  lemma TrimChars(s: string)
    ensures forall c :: c in Trim(s) ==> c in s
  {
    var u := TrimStart(s);
    var r := TrimEnd(u);
    assert forall j :: 0 <= j < |r| ==> r[j] == u[j];
    assert forall j :: 0 <= j < |u| ==> u[j] == s[|s| - |u| + j];
  }

  function UpperChar(c: char): char {
    if 'a' <= c <= 'z' then (c as int - 32) as char else c
  }

  function LowerChar(c: char): char {
    if 'A' <= c <= 'Z' then (c as int + 32) as char else c
  }

  predicate IsLowerLetter(c: char) { 'a' <= c <= 'z' }

  /** `toUpperCase`, restricted to the ASCII letters (see README). */
  function ToUpper(s: string): (r: string)
    ensures |r| == |s|
    ensures forall i :: 0 <= i < |s| ==> !IsLowerLetter(r[i])
    ensures forall i :: 0 <= i < |s| && !IsLowerLetter(s[i]) ==> r[i] == s[i]
    ensures forall i :: 0 <= i < |s| && IsLowerLetter(s[i]) ==> 'A' <= r[i] <= 'Z' && LowerChar(r[i]) == s[i]
  {
    seq(|s|, i requires 0 <= i < |s| => UpperChar(s[i]))
  }

  /** `toLowerCase`, restricted to the ASCII letters (see README). */
  function ToLower(s: string): (r: string)
    ensures |r| == |s|
    ensures forall i :: 0 <= i < |s| ==> !('A' <= r[i] <= 'Z')
    ensures forall i :: 0 <= i < |s| && !('A' <= s[i] <= 'Z') ==> r[i] == s[i]
    ensures forall i :: 0 <= i < |s| && 'A' <= s[i] <= 'Z' ==> IsLowerLetter(r[i]) && UpperChar(r[i]) == s[i]
  {
    seq(|s|, i requires 0 <= i < |s| => LowerChar(s[i]))
  }

  predicate HasLowerLetter(s: string) {
    exists i :: 0 <= i < |s| && IsLowerLetter(s[i])
  }

  /** Upper-casing is idempotent, so an ID that is already normalised is a fixed point. */
  lemma ToUpperIdempotent(s: string)
    ensures ToUpper(ToUpper(s)) == ToUpper(s)
  {
  }

  /** Lower-casing forgets any earlier upper-casing. */
  lemma LowerOfUpper(s: string)
    ensures ToLower(ToUpper(s)) == ToLower(s)
  {
    assert forall i :: 0 <= i < |s| ==> LowerChar(UpperChar(s[i])) == LowerChar(s[i]);
  }

  /** Lower-casing keeps a text without blanks at its ends so. */
  lemma LowerKeepsTrimmed(s: string)
    requires IsTrimmed(s)
    ensures IsTrimmed(ToLower(s))
  {
    if s != [] {
      var t := ToLower(s);
      assert !IsSpace(t[0]) by {
        if 'A' <= s[0] <= 'Z' { assert IsLowerLetter(t[0]); } else { assert t[0] == s[0]; }
      }
      assert !IsSpace(t[|t| - 1]) by {
        var j := |s| - 1;
        if 'A' <= s[j] <= 'Z' { assert IsLowerLetter(t[j]); } else { assert t[j] == s[j]; }
      }
    }
  }

  /** Upper-casing undoes lower-casing on a text without lower-case letters. */
  lemma UpperOfLower(s: string)
    requires !HasLowerLetter(s)
    ensures ToUpper(ToLower(s)) == s
  {
    var u := ToUpper(ToLower(s));
    forall i | 0 <= i < |s|
      ensures u[i] == s[i]
    {
      assert !IsLowerLetter(s[i]);
    }
  }

  /** No upper-cased string equals a string holding a lower-case ASCII letter. */
  lemma UpperNeverMatchesLower(s: string, stored: string)
    requires HasLowerLetter(stored)
    ensures ToUpper(s) != stored
  {
    var i :| 0 <= i < |stored| && IsLowerLetter(stored[i]);
    assert |ToUpper(s)| == |stored| ==> !IsLowerLetter(ToUpper(s)[i]);
  }

  /** `needle` sits in `hay` at index `i`. */
  predicate OccursAt(hay: string, needle: string, i: int) {
    0 <= i <= |hay| - |needle| && hay[i..i + |needle|] == needle
  }

  /** `needle` occurs as a contiguous part of `hay`. */
  ghost predicate Occurs(hay: string, needle: string) {
    exists i :: OccursAt(hay, needle, i)
  }

  lemma OccursAtShift(hay: string, needle: string, i: int)
    requires hay != [] && i >= 0
    ensures OccursAt(hay, needle, i + 1) <==> OccursAt(hay[1..], needle, i)
  {
    if 0 <= i <= |hay| - 1 - |needle| {
      assert hay[i + 1..i + 1 + |needle|] == hay[1..][i..i + |needle|];
    }
  }

  /** `String.prototype.includes`, written as the scan it performs. */
  function Includes(hay: string, needle: string): (r: bool)
    ensures r <==> Occurs(hay, needle)
    decreases |hay|
  {
    if |needle| > |hay| then
      assert forall i :: !OccursAt(hay, needle, i);
      false
    else if hay[..|needle|] == needle then
      assert OccursAt(hay, needle, 0);
      true
    else
      var r := Includes(hay[1..], needle);
      assert forall i {:trigger OccursAt(hay[1..], needle, i)} :: i >= 0 ==> (OccursAt(hay, needle, i + 1) <==> OccursAt(hay[1..], needle, i)) by {
        forall i | i >= 0 ensures OccursAt(hay, needle, i + 1) <==> OccursAt(hay[1..], needle, i) {
          OccursAtShift(hay, needle, i);
        }
      }
      assert !OccursAt(hay, needle, 0);
      assert r ==> OccursAt(hay, needle, (var j :| OccursAt(hay[1..], needle, j); j) + 1);
      assert Occurs(hay, needle) ==> r by {
        if Occurs(hay, needle) {
          var j :| OccursAt(hay, needle, j);
          assert OccursAt(hay[1..], needle, j - 1);
        }
      }
      r
  }

  /** The empty needle occurs everywhere: an empty search term matches every row. */
  lemma IncludesEmpty(hay: string)
    ensures Includes(hay, "")
  {
    assert OccursAt(hay, "", 0);
  }

  /** `s.startsWith(prefix)`: the needle occurs at position 0. */
  function StartsWith(s: string, prefix: string): (r: bool)
    ensures r <==> OccursAt(s, prefix, 0)
  {
    |prefix| <= |s| && s[..|prefix|] == prefix
  }

  /** Index of the first `sep` in `s`. */
  function IndexOf(s: string, sep: char): (i: nat)
    requires sep in s
    ensures i < |s| && s[i] == sep && sep !in s[..i]
  {
    if s[0] == sep then 0 else 1 + IndexOf(s[1..], sep)
  }

  /** The first separator is the only one with no separator before it. */
  lemma {:induction false} IndexOfUnique(s: string, sep: char, k: nat)
    requires k < |s| && s[k] == sep && sep !in s[..k]
    ensures IndexOf(s, sep) == k
  {
    if k > 0 {
      assert s[0] == s[..k][0];
      assert s[1..][..k - 1] == s[1..k];
      assert forall j :: 0 <= j < k - 1 ==> s[1..k][j] == s[..k][j + 1];
      IndexOfUnique(s[1..], sep, k - 1);
    }
  }

  /** `String.prototype.split` with a one-character separator: the pieces between separators,
      empty ones included, so there is always at least one. */
  function Split(s: string, sep: char): (r: seq<string>)
    ensures |r| >= 1
    ensures forall k :: 0 <= k < |r| ==> sep !in r[k]
    decreases |s|
  {
    if sep !in s then [s]
    else
      var i := IndexOf(s, sep);
      [s[..i]] + Split(s[i + 1..], sep)
  }

  /** `Array.prototype.join`: the inverse of Split. */
  function Join(pieces: seq<string>, sep: char): string
    requires |pieces| >= 1
  {
    if |pieces| == 1 then pieces[0] else pieces[0] + [sep] + Join(pieces[1..], sep)
  }

  /** Splitting loses nothing: joining the pieces back gives the input. */
  lemma {:induction false} SplitJoin(s: string, sep: char)
    ensures Join(Split(s, sep), sep) == s
    decreases |s|
  {
    if sep in s {
      var i := IndexOf(s, sep);
      var pieces := Split(s, sep);
      SplitJoin(s[i + 1..], sep);
      assert pieces[0] == s[..i] && pieces[1..] == Split(s[i + 1..], sep);
      assert Join(pieces, sep) == s[..i] + [sep] + s[i + 1..];
      assert s == s[..i] + [sep] + s[i + 1..];
    }
  }

  /** The pieces of `s.split(',').map(x => x.trim()).filter(x => x)`, first to last, taken
      one comma at a time. */
  function ParseCommaList(s: string): (r: seq<string>)
    ensures forall k :: 0 <= k < |r| ==> r[k] != "" && IsTrimmed(r[k]) && ',' !in r[k]
    decreases |s|
  {
    if ',' !in s then
      var t := Trim(s);
      assert ',' !in t by { TrimChars(s); }
      if t == "" then [] else [t]
    else
      var i := IndexOf(s, ',');
      var t := Trim(s[..i]);
      assert ',' !in t by { TrimChars(s[..i]); }
      (if t == "" then [] else [t]) + ParseCommaList(s[i + 1..])
  }

  /** `.map(x => x.trim()).filter(x => x)` over the pieces of a split: trims each piece and
      drops those that trim to nothing, keeping order. */
  function KeepNonBlank(pieces: seq<string>): seq<string>
  {
    if pieces == [] then []
    else
      var t := Trim(pieces[0]);
      (if t == "" then [] else [t]) + KeepNonBlank(pieces[1..])
  }

  /** The one-comma-at-a-time parse is the literal split, trim and filter chain. */
  lemma {:induction false} ParseCommaListIsSplitTrimFilter(s: string)
    ensures ParseCommaList(s) == KeepNonBlank(Split(s, ','))
    decreases |s|
  {
    var pieces := Split(s, ',');
    if ',' in s {
      var i := IndexOf(s, ',');
      ParseCommaListIsSplitTrimFilter(s[i + 1..]);
      assert pieces[0] == s[..i] && pieces[1..] == Split(s[i + 1..], ',');
    } else {
      assert pieces[1..] == [];
    }
  }

  /** A list with no comma is one entry, unless it is blank. */
  lemma ParseSingle(s: string)
    requires ',' !in s
    ensures ParseCommaList(s) == if AllSpace(s) then [] else [Trim(s)]
  {
    TrimEmptyIffAllSpace(s);
  }

  /** Parsing two lists joined by a comma parses each and concatenates the results. */
  lemma {:induction false} ParseConcat(a: string, b: string)
    requires ',' !in a
    ensures ParseCommaList(a + [','] + b) == ParseCommaList(a) + ParseCommaList(b)
  {
    var s := a + [','] + b;
    assert s[|a|] == ',';
    assert ',' !in s[..|a|] by { assert s[..|a|] == a; }
    IndexOfUnique(s, ',', |a|);
    var i := IndexOf(s, ',');
    assert s[..i] == a;
    assert s[i + 1..] == b;
  }

  function DigitChar(d: nat): char
    requires d < 10
  {
    ('0' as int + d) as char
  }

  predicate IsDigit(c: char) { '0' <= c <= '9' }

  /** A template literal's `${n}` for a count: its decimal digits. */
  function Decimal(n: nat): (s: string)
    ensures |s| >= 1 && forall i :: 0 <= i < |s| ==> IsDigit(s[i])
  {
    if n < 10 then [DigitChar(n)] else Decimal(n / 10) + [DigitChar(n % 10)]
  }

  /** The number a string of decimal digits denotes. */
  function DigitsValue(s: string): nat
    requires forall i :: 0 <= i < |s| ==> IsDigit(s[i])
  {
    if s == [] then 0
    else
      assert IsDigit(s[|s| - 1]);
      10 * DigitsValue(s[..|s| - 1]) + (s[|s| - 1] as int - '0' as int)
  }

  /** Reading the digits back gives the count. */
  lemma {:induction false} DecimalRoundTrip(n: nat)
    ensures DigitsValue(Decimal(n)) == n
  {
    if n >= 10 {
      var s := Decimal(n);
      assert s[..|s| - 1] == Decimal(n / 10);
      DecimalRoundTrip(n / 10);
    } else {
      assert Decimal(n)[..0] == [];
    }
  }
}
