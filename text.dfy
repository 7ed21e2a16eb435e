// The string primitives the core is written against: PTLib's PString
// (Find, Replace, Trim, Left, Mid, case-insensitive comparison), the C
// library's isspace/tolower/atoi and printf "%d", and GLib's g_strsplit.
// Indices are 0-based; PString's P_MAX_INDEX ("not found") is None.

module Text {
  import opened Base

  /** `pat` occurs in `s` starting at index `k`. */
  predicate OccursAt(s: string, pat: string, k: nat)
  {
    k + |pat| <= |s| && s[k..k + |pat|] == pat
  }

  /** First occurrence of `pat` in `s` at or after `k`. */
  function FindFrom(s: string, pat: string, k: nat): (r: Option<nat>)
    decreases |s| - k
    ensures r.Some? ==> k <= r.value && OccursAt(s, pat, r.value)
    ensures r.Some? ==> forall j :: k <= j < r.value ==> !OccursAt(s, pat, j)
    ensures r.None? ==> forall j :: k <= j ==> !OccursAt(s, pat, j)
  {
    if k + |pat| > |s| then None
    else if OccursAt(s, pat, k) then Some(k)
    else FindFrom(s, pat, k + 1)
  }

  /** PString::Find: the first index of `pat` in `s`; an empty pattern is never found. */
  function Find(s: string, pat: string): (r: Option<nat>)
    ensures r.Some? ==> pat != [] && OccursAt(s, pat, r.value)
    ensures r.Some? ==> forall j :: 0 <= j < r.value ==> !OccursAt(s, pat, j)
    ensures r.None? ==> pat == [] || forall j :: 0 <= j ==> !OccursAt(s, pat, j)
  {
    if pat == [] then None else FindFrom(s, pat, 0)
  }

  /** `s.Find(pat) != P_MAX_INDEX` */
  predicate Contains(s: string, pat: string)
  {
    Find(s, pat).Some?
  }

  /** `s.Find(pat) == 0` */
  predicate StartsWith(s: string, pat: string)
  {
    Find(s, pat) == Some(0)
  }

  lemma StartsWithIsPrefix(s: string, pat: string)
    ensures StartsWith(s, pat) <==> pat != [] && |pat| <= |s| && s[..|pat|] == pat
  {
    if pat != [] && |pat| <= |s| && s[..|pat|] == pat {
      assert OccursAt(s, pat, 0);
    }
  }

  lemma FindOfPrefix(pat: string, t: string)
    requires pat != []
    ensures StartsWith(pat + t, pat)
  {
    StartsWithIsPrefix(pat + t, pat);
    assert (pat + t)[..|pat|] == pat;
  }

  /** Appending keeps what text starts with. */
  lemma StartsWithAppend(s: string, pat: string, t: string)
    requires StartsWith(s, pat)
    ensures StartsWith(s + t, pat)
  {
    StartsWithIsPrefix(s, pat);
    StartsWithIsPrefix(s + t, pat);
    assert (s + t)[..|pat|] == s[..|pat|];
  }

  /** Text without a character of the pattern does not contain the pattern. */
  lemma MissingCharNotContained(s: string, pat: string, j: nat)
    requires j < |pat| && pat[j] !in s
    ensures !Contains(s, pat)
  {
    forall k: nat | k + |pat| <= |s|
      ensures !OccursAt(s, pat, k)
    {
      assert s[k..k + |pat|][j] == s[k + j] != pat[j];
    }
  }

  /** The index of the first occurrence of character `c`. */
  function FindChar(s: string, c: char): (r: Option<nat>)
    ensures r.Some? ==> r.value < |s| && s[r.value] == c
    ensures r.Some? ==> forall j :: 0 <= j < r.value ==> s[j] != c
    ensures r.None? <==> c !in s
  {
    if c !in s then None
    else if s[0] == c then Some(0)
    else
      var r := FindChar(s[1..], c);
      Some(r.value + 1)
  }

  lemma FindCharIsFind(s: string, c: char)
    ensures Find(s, [c]) == FindChar(s, c)
  {
    var f := Find(s, [c]);
    var g := FindChar(s, c);
    if f.Some? {
      assert s[f.value..f.value + 1] == [s[f.value]];
      assert s[f.value] == c;
    }
    if g.Some? {
      assert OccursAt(s, [c], g.value) by { assert s[g.value..g.value + 1] == [s[g.value]]; }
    }
  }

  lemma FindCharOfConcat(a: string, c: char, b: string)
    requires c !in a
    ensures FindChar(a + [c] + b, c) == Some(|a|)
  {
    var s := a + [c] + b;
    assert s[|a|] == c;
  }

  /** An occurrence with none before it is what Find returns. */
  lemma FindIsFirstOccurrence(s: string, pat: string, k: nat)
    requires pat != [] && OccursAt(s, pat, k)
    requires forall j :: 0 <= j < k ==> !OccursAt(s, pat, j)
    ensures Find(s, pat) == Some(k)
  {
  }

  /** PString::Replace(pat, sub): replaces the FIRST occurrence only. */
  function ReplaceFirst(s: string, pat: string, sub: string): (r: string)
    ensures !Contains(s, pat) ==> r == s
    ensures Contains(s, pat) ==> |r| == |s| - |pat| + |sub|
  {
    match Find(s, pat)
    case None => s
    case Some(i) => s[..i] + sub + s[i + |pat|..]
  }

  /** The characters C's isspace accepts. */
  predicate IsSpace(c: char)
  {
    c == ' ' || c == '\t' || c == '\n' || c == '\r' || c == '\U{B}' || c == '\U{C}'
  }

  function TrimLeft(s: string): (r: string)
    ensures |r| <= |s| && r == s[|s| - |r|..]
    ensures r == [] || !IsSpace(r[0])
  {
    if s != [] && IsSpace(s[0]) then TrimLeft(s[1..]) else s
  }

  function TrimRight(s: string): (r: string)
    ensures |r| <= |s| && r == s[..|r|]
    ensures r == [] || !IsSpace(r[|r| - 1])
  {
    if s != [] && IsSpace(s[|s| - 1]) then TrimRight(s[..|s| - 1]) else s
  }

  /** PString::Trim: strips leading and trailing white space. */
  function Trim(s: string): (r: string)
    ensures r == [] || (!IsSpace(r[0]) && !IsSpace(r[|r| - 1]))
    ensures exists i {:trigger s[i..]} :: 0 <= i <= |s| - |r| && r == s[i..i + |r|]
  {
    var l := TrimLeft(s);
    var r := TrimRight(l);
    assert r == s[|s| - |l|..|s| - |l| + |r|];
    r
  }

  lemma TrimClean(s: string)
    requires s == [] || (!IsSpace(s[0]) && !IsSpace(s[|s| - 1]))
    ensures Trim(s) == s
  {
  }

  /** PString::Left(n): the first `n` characters; "" when n <= 0. */
  function Left(s: string, n: int): (r: string)
    ensures n <= 0 ==> r == []
    ensures 0 <= n <= |s| ==> r == s[..n]
    ensures n >= |s| ==> r == s
  {
    if n <= 0 then [] else if n >= |s| then s else s[..n]
  }

  /** PString::Mid(start): the suffix from `start`; "" past the end. */
  function MidFrom(s: string, start: nat): (r: string)
    ensures start <= |s| ==> r == s[start..]
    ensures start >= |s| ==> r == []
  {
    if start > |s| then [] else s[start..]
  }

  /** PString::Mid(start, len): at most `len` characters from `start`. */
  function Mid(s: string, start: nat, len: int): (r: string)
    ensures len <= 0 || start >= |s| ==> r == []
    ensures 0 < len && start + len <= |s| ==> r == s[start..start + len]
    ensures 0 < len && start <= |s| <= start + len ==> r == s[start..]
  {
    if len <= 0 || start > |s| then []
    else if start + len >= |s| then s[start..]
    else s[start..start + len]
  }

  /** C tolower in the "C" locale. */
  function LowerChar(c: char): (r: char)
    ensures 'A' <= c <= 'Z' ==> 'a' <= r <= 'z'
    ensures !('A' <= c <= 'Z') ==> r == c
  {
    if 'A' <= c <= 'Z' then (c as int + 32) as char else c
  }

  function ToLower(s: string): (r: string)
    ensures |r| == |s|
    ensures forall i :: 0 <= i < |s| ==> r[i] == LowerChar(s[i])
  {
    if s == [] then [] else [LowerChar(s[0])] + ToLower(s[1..])
  }

  lemma {:induction false} ToLowerIdempotent(s: string)
    ensures ToLower(ToLower(s)) == ToLower(s)
  {
    var t := ToLower(s);
    var u := ToLower(t);
    assert forall i :: 0 <= i < |s| ==> u[i] == t[i];
  }

  /** PString's `*=` and g_ascii_strcasecmp(a, b) == 0. */
  predicate EqualsIgnoreCase(a: string, b: string)
  {
    ToLower(a) == ToLower(b)
  }

  // ---- Decimal numbers: printf "%d" and atoi ----

  predicate IsDigit(c: char)
  {
    '0' <= c <= '9'
  }

  predicate AllDigits(s: string)
  {
    forall i :: 0 <= i < |s| ==> IsDigit(s[i])
  }

  function DigitChar(d: nat): (c: char)
    requires d < 10
    ensures IsDigit(c) && c as int - '0' as int == d
  {
    ('0' as int + d) as char
  }

  /** The decimal text of a natural number, most significant digit first. */
  function NatToString(n: nat): (r: string)
    ensures r != [] && AllDigits(r)
    decreases n
  {
    if n < 10 then [DigitChar(n)] else NatToString(n / 10) + [DigitChar(n % 10)]
  }

  /** printf "%d". */
  function IntToString(n: int): (r: string)
    ensures r != []
    ensures n >= 0 ==> AllDigits(r)
    ensures n < 0 ==> r[0] == '-' && AllDigits(r[1..])
  {
    if n < 0 then "-" + NatToString(-n) else NatToString(n)
  }

  /** The value of a string of decimal digits (0 for the empty string). */
  function DigitsValue(s: string): (v: nat)
    requires AllDigits(s)
  {
    if s == [] then 0
    else DigitsValue(s[..|s| - 1]) * 10 + (s[|s| - 1] as int - '0' as int)
  }

  /** The longest prefix of `s` made of digits. */
  function LeadingDigits(s: string): (r: string)
    ensures |r| <= |s| && AllDigits(r) && r == s[..|r|]
    ensures |r| == |s| || !IsDigit(s[|r|])
  {
    if s != [] && IsDigit(s[0]) then [s[0]] + LeadingDigits(s[1..]) else []
  }

  /**
   * What strtol reads, without its range limit: white space is skipped,
   * then an optional sign and the leading digits.
   */
  function DecimalPrefixValue(s: string): int
  {
    var t := TrimLeft(s);
    if t != [] && t[0] == '-' then -(DigitsValue(LeadingDigits(t[1..])) as int)
    else if t != [] && t[0] == '+' then DigitsValue(LeadingDigits(t[1..]))
    else DigitsValue(LeadingDigits(t))
  }

  const IntMin := -0x8000_0000
  const IntMax := 0x7fff_ffff
  const LongMin := -0x8000_0000_0000_0000
  const LongMax := 0x7fff_ffff_ffff_ffff

  /** The range of a 32-bit C int. */
  predicate IsInt(n: int)
  {
    IntMin <= n <= IntMax
  }

  /** strtol on an LP64 system: a value outside a 64-bit long saturates. */
  function LongSaturated(n: int): (r: int)
    ensures LongMin <= r <= LongMax
    ensures LongMin <= n <= LongMax ==> r == n
    ensures n > LongMax ==> r == LongMax
    ensures n < LongMin ==> r == LongMin
  {
    if n > LongMax then LongMax else if n < LongMin then LongMin else n
  }

  /** The conversion of a long to int as GCC does it: the low 32 bits, read as signed. */
  function IntWrapped(n: int): (r: int)
    ensures IsInt(r) && (n - r) % 0x1_0000_0000 == 0
    ensures IsInt(n) ==> r == n
  {
    var m := n % 0x1_0000_0000;
    if m <= IntMax then m else m - 0x1_0000_0000
  }

  /** A multiple of 2^32 converts to the int 0. */
  lemma IntWrappedOfMultiple(k: nat)
    ensures IntWrapped(k * 0x1_0000_0000) == 0
  {
    assert (k * 0x1_0000_0000) % 0x1_0000_0000 == 0;
  }

  /** glibc atoi on an LP64 system: `(int) strtol (s, NULL, 10)`. */
  function Atoi(s: string): (r: int)
    ensures IsInt(r)
    ensures IsInt(DecimalPrefixValue(s)) ==> r == DecimalPrefixValue(s)
  {
    IntWrapped(LongSaturated(DecimalPrefixValue(s)))
  }

  lemma LeadingDigitsOfDigits(s: string)
    requires AllDigits(s)
    ensures LeadingDigits(s) == s
  {
    if s != [] {
      LeadingDigitsOfDigits(s[1..]);
    }
  }

  lemma {:induction false} NatToStringValue(n: nat)
    ensures DigitsValue(NatToString(n)) == n
    decreases n
  {
    if n >= 10 {
      NatToStringValue(n / 10);
      var s := NatToString(n);
      assert s[..|s| - 1] == NatToString(n / 10);
    }
  }

  /** A string of digits reads as its value. */
  lemma DecimalOfDigits(s: string)
    requires AllDigits(s)
    ensures DecimalPrefixValue(s) == DigitsValue(s)
  {
    LeadingDigitsOfDigits(s);
    if s != [] {
      assert IsDigit(s[0]) && !IsSpace(s[0]);
      assert TrimLeft(s) == s;
      assert s[0] != '-' && s[0] != '+';
    }
    assert DecimalPrefixValue(s) == DigitsValue(LeadingDigits(s));
  }

  /** atoi of a string of digits is its value, when that fits in an int. */
  lemma AtoiOfDigits(s: string)
    requires AllDigits(s)
    ensures DecimalPrefixValue(s) == DigitsValue(s)
    ensures DigitsValue(s) <= IntMax ==> Atoi(s) == DigitsValue(s)
  {
    DecimalOfDigits(s);
  }

  /** The decimal text of a natural number reads back as that number. */
  lemma DecimalOfNatText(n: nat)
    ensures DecimalPrefixValue(NatToString(n)) == n
  {
    DecimalOfDigits(NatToString(n));
    NatToStringValue(n);
  }

  lemma DecimalOfNegativeText(n: nat)
    ensures DecimalPrefixValue("-" + NatToString(n)) == -(n as int)
  {
    var s := "-" + NatToString(n);
    assert TrimLeft(s) == s;
    assert s[1..] == NatToString(n);
    LeadingDigitsOfDigits(s[1..]);
    NatToStringValue(n);
  }

  /** printf "%d" followed by atoi gives back any int. */
  lemma AtoiIntToString(n: int)
    requires IsInt(n)
    ensures Atoi(IntToString(n)) == n
  {
    if n < 0 {
      DecimalOfNegativeText(-n);
      assert IntToString(n) == "-" + NatToString(-n);
    } else {
      DecimalOfNatText(n);
    }
    assert DecimalPrefixValue(IntToString(n)) == n;
  }

  // ---- g_strsplit and its inverse ----

  /** The pieces of `s` between occurrences of `sep`, keeping empty pieces; never empty. */
  function Pieces(s: string, sep: char): (r: seq<string>)
    ensures |r| >= 1
  {
    if s == [] then [[]]
    else if s[0] == sep then [[]] + Pieces(s[1..], sep)
    else
      var t := Pieces(s[1..], sep);
      [[s[0]] + t[0]] + t[1..]
  }

  /** g_strsplit(s, sep, 0): no tokens at all for the empty string. */
  function Split(s: string, sep: char): (r: seq<string>)
    ensures s == [] <==> r == []
  {
    if s == [] then [] else Pieces(s, sep)
  }

  /** The pieces joined with `sep` between them. */
  function Join(fields: seq<string>, sep: char): string
    requires |fields| >= 1
    decreases |fields|
  {
    if |fields| == 1 then fields[0] else fields[0] + [sep] + Join(fields[1..], sep)
  }

  lemma {:induction false} PiecesOfPlain(a: string, sep: char)
    requires sep !in a
    ensures Pieces(a, sep) == [a]
    decreases |a|
  {
    if a != [] {
      PiecesOfPlain(a[1..], sep);
      assert [a[0]] + a[1..] == a;
    }
  }

  lemma {:induction false} PiecesOfConcat(a: string, sep: char, rest: string)
    requires sep !in a
    ensures Pieces(a + [sep] + rest, sep) == [a] + Pieces(rest, sep)
    decreases |a|
  {
    if a == [] {
      assert a + [sep] + rest == [sep] + rest;
      assert ([sep] + rest)[1..] == rest;
    } else {
      var s := a + [sep] + rest;
      assert s[0] == a[0];
      assert s[1..] == a[1..] + [sep] + rest;
      PiecesOfConcat(a[1..], sep, rest);
      assert [a[0]] + a[1..] == a;
    }
  }

  /** Splitting what Join produced gives the fields back when none contains the separator. */
  lemma {:induction false} PiecesOfJoin(fields: seq<string>, sep: char)
    requires |fields| >= 1
    requires forall i :: 0 <= i < |fields| ==> sep !in fields[i]
    ensures Pieces(Join(fields, sep), sep) == fields
    decreases |fields|
  {
    if |fields| == 1 {
      PiecesOfPlain(fields[0], sep);
    } else {
      PiecesOfJoin(fields[1..], sep);
      PiecesOfConcat(fields[0], sep, Join(fields[1..], sep));
      assert [fields[0]] + fields[1..] == fields;
    }
  }

  lemma SplitOfJoin(fields: seq<string>, sep: char)
    requires |fields| >= 2
    requires forall i :: 0 <= i < |fields| ==> sep !in fields[i]
    ensures Split(Join(fields, sep), sep) == fields
  {
    PiecesOfJoin(fields, sep);
    assert sep in Join(fields, sep) by {
      assert Join(fields, sep) == fields[0] + [sep] + Join(fields[1..], sep);
      assert Join(fields, sep)[|fields[0]|] == sep;
    }
  }

}
