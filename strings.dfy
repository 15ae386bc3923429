/**
 * The JavaScript string operations the pages rely on: `trim`, `includes`, `toLowerCase` /
 * `toUpperCase` (ASCII letters), `replace` with a one-character pattern, `split` / `join` on one
 * character, `replace(/\D/g, '')`, `Number.prototype.toString` and `parseInt` on integers.
 */
module Strings {
  import opened Wrappers
  import Seqs

  /** The characters `String.prototype.trim` removes: ECMAScript WhiteSpace and LineTerminator. */
  predicate IsSpace(c: char)
  {
    || c == ' ' || c == '\t' || c == '\n' || c == '\r' || c == '\U{000B}' || c == '\U{000C}'
    || c == '\U{00A0}' || c == '\U{1680}' || ('\U{2000}' <= c <= '\U{200A}')
    || c == '\U{2028}' || c == '\U{2029}' || c == '\U{202F}' || c == '\U{205F}'
    || c == '\U{3000}' || c == '\U{FEFF}'
  }

  predicate AllSpace(s: string)
  {
    forall i :: 0 <= i < |s| ==> IsSpace(s[i])
  }

  /** The number of whitespace characters `s` starts with. */
  function LeadingSpaces(s: string): (n: nat)
    ensures n <= |s|
  {
    if s != [] && IsSpace(s[0]) then 1 + LeadingSpaces(s[1..]) else 0
  }

  lemma {:induction false} LeadingSpacesMeaning(s: string)
    ensures forall i :: 0 <= i < LeadingSpaces(s) ==> IsSpace(s[i])
    ensures LeadingSpaces(s) < |s| ==> !IsSpace(s[LeadingSpaces(s)])
  {
    if s != [] && IsSpace(s[0]) {
      LeadingSpacesMeaning(s[1..]);
    }
  }

  /** The number of whitespace characters `s` ends with. */
  function TrailingSpaces(s: string): (n: nat)
    ensures n <= |s|
  {
    if s != [] && IsSpace(s[|s| - 1]) then 1 + TrailingSpaces(s[..|s| - 1]) else 0
  }

  lemma {:induction false} TrailingSpacesMeaning(s: string)
    ensures forall i :: |s| - TrailingSpaces(s) <= i < |s| ==> IsSpace(s[i])
    ensures TrailingSpaces(s) < |s| ==> !IsSpace(s[|s| - TrailingSpaces(s) - 1])
  {
    if s != [] && IsSpace(s[|s| - 1]) {
      TrailingSpacesMeaning(s[..|s| - 1]);
    }
  }

  /** `s` without its leading whitespace, as `parseInt` skips it. */
  function TrimStart(s: string): string
  {
    s[LeadingSpaces(s)..]
  }

  /** `s.trim()`: `s` without its leading and trailing whitespace. */
  function Trim(s: string): string
  {
    var n := LeadingSpaces(s);
    if n == |s| then []
    else
      LeadingSpacesMeaning(s);
      TrailingSpacesMeaning(s);
      s[n..|s| - TrailingSpaces(s)]
  }

  /** What `trim()` leaves neither starts nor ends with whitespace, and it is the middle of `s`:
      what it drops on either side is whitespace. */
  lemma TrimMeaning(s: string)
    ensures Trim(s) == [] || (!IsSpace(Trim(s)[0]) && !IsSpace(Trim(s)[|Trim(s)| - 1]))
    ensures exists i, j :: 0 <= i <= j <= |s| && Trim(s) == s[i..j] && AllSpace(s[..i]) && AllSpace(s[j..])
  {
    LeadingSpacesMeaning(s);
    TrailingSpacesMeaning(s);
    var n := LeadingSpaces(s);
    if n == |s| {
      assert Trim(s) == s[n..n] && AllSpace(s[..n]) && AllSpace(s[n..]);
    } else {
      var j := |s| - TrailingSpaces(s);
      assert Trim(s) == s[n..j] && AllSpace(s[..n]) && AllSpace(s[j..]);
    }
  }

  /** `!s.trim()`: the field is empty or only whitespace. */
  predicate IsBlank(s: string)
  {
    AllSpace(s)
  }

  /** Blank is exactly what `!s.trim()` tests: trimming leaves nothing. */
  lemma BlankIffTrimEmpty(s: string)
    ensures IsBlank(s) <==> Trim(s) == []
  {
    LeadingSpacesMeaning(s);
    TrailingSpacesMeaning(s);
    var n := LeadingSpaces(s);
    if n < |s| {
      assert !IsSpace(s[n]);
      assert |s| - TrailingSpaces(s) > n;
    }
  }

  /** `s || null` for a string: the empty string becomes `null`. */
  function OrNull(s: string): (r: Option<string>)
    ensures r.None? <==> s == []
    ensures r.Some? ==> r.value == s
  {
    if s == [] then None else Some(s)
  }

  /** `x || ''` for an optional string: `null`, `undefined` and '' all become ''. */
  function OrEmpty(x: Option<string>): (r: string)
    ensures x.None? ==> r == []
    ensures x.Some? ==> r == x.value
  {
    if x.Some? then x.value else []
  }

  /** The truthiness of an optional string: present and non-empty. */
  predicate Truthy(x: Option<string>)
  {
    x.Some? && x.value != []
  }

  /** Reading a nullable column into a form field and writing it back with `|| null` gives the
      column back, except that a stored empty string comes back as `null`. */
  lemma OrNullOrEmpty(x: Option<string>)
    ensures OrNull(OrEmpty(x)) == if Truthy(x) then x else None
  {
  }

  function LowerChar(c: char): char
  {
    if 'A' <= c <= 'Z' then (c as int + 32) as char else c
  }

  function UpperChar(c: char): char
  {
    if 'a' <= c <= 'z' then (c as int - 32) as char else c
  }

  /** `s.toLowerCase()` on ASCII letters. */
  function ToLower(s: string): (r: string)
    ensures |r| == |s|
    ensures forall i :: 0 <= i < |s| ==> r[i] == LowerChar(s[i])
  {
    if s == [] then [] else [LowerChar(s[0])] + ToLower(s[1..])
  }

  /** `s.toUpperCase()` on ASCII letters. */
  function ToUpper(s: string): (r: string)
    ensures |r| == |s|
  {
    if s == [] then [] else [UpperChar(s[0])] + ToUpper(s[1..])
  }

  /** Each character is upper-cased in place. */
  lemma {:induction false} ToUpperAt(s: string, i: int)
    requires 0 <= i < |s|
    ensures ToUpper(s)[i] == UpperChar(s[i])
  {
    if i > 0 {
      ToUpperAt(s[1..], i - 1);
    }
  }

  lemma {:induction false} ToUpperConcat(a: string, b: string)
    ensures ToUpper(a + b) == ToUpper(a) + ToUpper(b)
  {
    if a == [] {
      assert a + b == b;
    } else {
      var h, t := a[0], a[1..];
      assert (a + b)[0] == h;
      assert (a + b)[1..] == t + b;
      ToUpperConcat(t, b);
      var uh, ut, ub := [UpperChar(h)], ToUpper(t), ToUpper(b);
      assert ToUpper(a + b) == uh + (ut + ub);
      assert ToUpper(a) == uh + ut;
      assert uh + (ut + ub) == (uh + ut) + ub;
    }
  }



  /** `t` occurs in `s` starting at index `i`. */
  predicate OccursAt(s: string, t: string, i: int)
  {
    0 <= i && i + |t| <= |s| && s[i..i + |t|] == t
  }

  /** `s.includes(t)`: tries `t` at each position of `s`, from the left. */
  predicate Includes(s: string, t: string)
    decreases |s|
  {
    |t| <= |s| && (s[..|t|] == t || (s != [] && Includes(s[1..], t)))
  }

  /** The left-to-right search finds `t` exactly when `t` occurs somewhere in `s`. */
  lemma {:induction false} IncludesIffOccurs(s: string, t: string)
    ensures Includes(s, t) <==> exists i :: OccursAt(s, t, i)
    decreases |s|
  {
    if |t| <= |s| && s[..|t|] == t {
      assert OccursAt(s, t, 0);
    } else if |t| <= |s| && s != [] {
      IncludesIffOccurs(s[1..], t);
      forall i | OccursAt(s[1..], t, i)
        ensures OccursAt(s, t, i + 1)
      {
        assert s[1..][i..i + |t|] == s[i + 1..i + 1 + |t|];
      }
      forall i | OccursAt(s, t, i)
        ensures OccursAt(s[1..], t, i - 1)
      {
        assert i != 0;
        assert s[1..][i - 1..i - 1 + |t|] == s[i..i + |t|];
      }
    }
  }

  /** Lower-casing both sides never loses a verbatim occurrence: a search term typed exactly as it
      appears is found whatever its case. */
  lemma IncludesLowered(s: string, t: string)
    requires Includes(s, t)
    ensures Includes(ToLower(s), ToLower(t))
  {
    IncludesIffOccurs(s, t);
    var i :| OccursAt(s, t, i);
    OccursLowered(s, t, i);
    IncludesIffOccurs(ToLower(s), ToLower(t));
  }

  lemma OccursLowered(s: string, t: string, i: int)
    requires OccursAt(s, t, i)
    ensures OccursAt(ToLower(s), ToLower(t), i)
  {
    var window := ToLower(s)[i..i + |t|];
    forall k | 0 <= k < |t|
      ensures window[k] == ToLower(t)[k]
    {
      assert s[i..i + |t|][k] == t[k];
    }
    assert window == ToLower(t);
  }


  /** `s.replace(a, b)` with one-character strings: only the first `a` is replaced (see
      `ReplaceFirstAfter`). */
  function ReplaceFirst(s: string, a: char, b: char): (r: string)
    ensures |r| == |s|
    ensures a !in s ==> r == s
  {
    if s == [] then []
    else if s[0] == a then [b] + s[1..]
    else [s[0]] + ReplaceFirst(s[1..], a, b)
  }

  /** `name.replace('_', ' ').toUpperCase()`: the badge text of an enum value. */
  function BadgeText(name: string): (badge: string)
    ensures |badge| == |name|
  {
    ToUpper(ReplaceFirst(name, '_', ' '))
  }

  /** A name without an underscore is simply upper-cased. */
  lemma BadgeTextOfWord(name: string)
    requires '_' !in name
    ensures BadgeText(name) == ToUpper(name)
  {
  }

  /** Replacing the first `c` of a string whose first `c` follows `a`: every string holding a `c`
      has this form, so this and the contract above say all there is about `ReplaceFirst`. */
  lemma {:induction false} ReplaceFirstAfter(a: string, b: string, c: char, d: char)
    requires c !in a
    ensures ReplaceFirst(a + [c] + b, c, d) == a + [d] + b
  {
    var s := a + [c] + b;
    if a == [] {
      assert s == [c] + b;
      assert s[1..] == b;
    } else {
      assert s[0] == a[0] && a[0] != c;
      assert s[1..] == a[1..] + [c] + b;
      ReplaceFirstAfter(a[1..], b, c, d);
      assert [a[0]] + (a[1..] + [d] + b) == a + [d] + b;
    }
  }

  /** A name whose first underscore follows the word `a` reads as two upper-cased words. */
  lemma BadgeTextOfTwoWords(a: string, b: string)
    requires '_' !in a
    ensures BadgeText(a + ['_'] + b) == ToUpper(a) + [' '] + ToUpper(b)
  {
    var spaced := a + [' '] + b;
    ReplaceFirstAfter(a, b, '_', ' ');
    assert ReplaceFirst(a + ['_'] + b, '_', ' ') == spaced;
    ToUpperConcat(a + [' '], b);
    ToUpperConcat(a, [' ']);
    assert ToUpper([' ']) == [' '];
  }

  /** `s.split(sep)` with a one-character separator: the pieces between separators, never none. */
  function Split(s: string, sep: char): (r: seq<string>)
    ensures |r| >= 1
  {
    if s == [] then [[]]
    else
      var rest := Split(s[1..], sep);
      if s[0] == sep then [[]] + rest
      else [[s[0]] + rest[0]] + rest[1..]
  }

  /** No piece holds the separator. */
  lemma {:induction false} SplitPiecesAreSeparatorFree(s: string, sep: char)
    ensures forall p :: p in Split(s, sep) ==> sep !in p
  {
    if s != [] {
      var rest := Split(s[1..], sep);
      SplitPiecesAreSeparatorFree(s[1..], sep);
      if s[0] != sep {
        var r := Split(s, sep);
        forall p | p in r
          ensures sep !in p
        {
          if p != r[0] {
            assert p in rest[1..];
          } else {
            assert rest[0] in rest;
          }
        }
      }
    }
  }

  /** `parts.join(sep)`. */
  function Join(parts: seq<string>, sep: char): string
  {
    if parts == [] then []
    else if |parts| == 1 then parts[0]
    else parts[0] + [sep] + Join(parts[1..], sep)
  }

  /** Joining the pieces back with the separator gives the original string. */
  lemma {:induction false} JoinSplit(s: string, sep: char)
    ensures Join(Split(s, sep), sep) == s
  {
    if s != [] {
      var rest := Split(s[1..], sep);
      JoinSplit(s[1..], sep);
      if s[0] == sep {
        assert Split(s, sep)[1..] == rest;
      } else if |rest| == 1 {
        assert s == [s[0]] + s[1..];
      } else {
        var r := Split(s, sep);
        assert r[1..] == rest[1..];
        assert Join(rest, sep) == rest[0] + [sep] + Join(rest[1..], sep);
        assert s == [s[0]] + s[1..];
      }
    }
  }

  lemma {:induction false} SplitWithoutSeparator(s: string, sep: char)
    requires sep !in s
    ensures Split(s, sep) == [s]
  {
    if s != [] {
      SplitWithoutSeparator(s[1..], sep);
      assert s == [s[0]] + s[1..];
    }
  }

  /** The pieces of `[c] + t` from the pieces `r` of `t`: a separator opens an empty piece, any
      other character joins the front of the first piece. */
  function ConsPiece(c: char, r: seq<string>, sep: char): seq<string>
    requires |r| >= 1
  {
    if c == sep then [[]] + r else [[c] + r[0]] + r[1..]
  }

  /** One step of `Split`. */
  lemma SplitCons(c: char, t: string, sep: char)
    ensures Split([c] + t, sep) == ConsPiece(c, Split(t, sep), sep)
  {
    assert ([c] + t)[1..] == t;
  }

  lemma ConsPieceAppend(c: char, r: seq<string>, rb: seq<string>, sep: char)
    requires |r| >= 1
    ensures ConsPiece(c, r + rb, sep) == ConsPiece(c, r, sep) + rb
  {
    if c == sep {
      assert [[]] + (r + rb) == ([[]] + r) + rb;
    } else {
      assert (r + rb)[0] == r[0];
      assert (r + rb)[1..] == r[1..] + rb;
      var head := [c] + r[0];
      assert [head] + (r[1..] + rb) == ([head] + r[1..]) + rb;
    }
  }

  /** A separator splits the string into the pieces of its two sides. */
  lemma {:induction false} SplitAroundSeparator(a: string, b: string, sep: char)
    ensures Split(a + [sep] + b, sep) == Split(a, sep) + Split(b, sep)
  {
    if a == [] {
      assert a + [sep] + b == [sep] + b;
      SplitCons(sep, b, sep);
    } else {
      var c, t := a[0], a[1..];
      assert a == [c] + t;
      assert a + [sep] + b == [c] + (t + [sep] + b);
      SplitAroundSeparator(t, b, sep);
      SplitCons(c, t, sep);
      SplitCons(c, t + [sep] + b, sep);
      ConsPieceAppend(c, Split(t, sep), Split(b, sep), sep);
    }
  }

  /** Splitting a join of separator-free pieces gives the pieces back. */
  lemma {:induction false} SplitJoin(parts: seq<string>, sep: char)
    requires |parts| >= 1
    requires forall p :: p in parts ==> sep !in p
    ensures Split(Join(parts, sep), sep) == parts
  {
    SplitWithoutSeparator(parts[0], sep);
    if |parts| > 1 {
      SplitJoin(parts[1..], sep);
      SplitAroundSeparator(parts[0], Join(parts[1..], sep), sep);
      assert parts == [parts[0]] + parts[1..];
    }
  }

  predicate IsDigit(c: char)
  {
    '0' <= c <= '9'
  }

  /** `s.replace(/\D/g, '')`: keeps only the ASCII digits, in order. */
  function DigitsOnly(s: string): (r: string)
    ensures forall i :: 0 <= i < |r| ==> IsDigit(r[i])
    ensures forall c :: IsDigit(c) ==> (c in r <==> c in s)
  {
    Seqs.Filter(IsDigit, s)
  }

  /** Stripping acts piece by piece, so it keeps the digits in their order; and a string of digits is left alone. */
  lemma DigitsOnlyProperties(a: string, b: string)
    ensures DigitsOnly(a + b) == DigitsOnly(a) + DigitsOnly(b)
    ensures DigitsOnly(DigitsOnly(a)) == DigitsOnly(a)
  {
    Seqs.FilterConcat(IsDigit, a, b);
    Seqs.FilterKeepsAll(IsDigit, DigitsOnly(a));
  }

  function DigitChar(d: int): char
    requires 0 <= d < 10
  {
    ('0' as int + d) as char
  }

  function DigitValue(c: char): int
    requires IsDigit(c)
  {
    c as int - '0' as int
  }

  predicate AllDigits(s: string)
  {
    forall i :: 0 <= i < |s| ==> IsDigit(s[i])
  }

  /** The decimal value of a string of digits. */
  function DigitsValue(ds: string): nat
    requires AllDigits(ds)
  {
    if ds == [] then 0 else DigitsValue(ds[..|ds| - 1]) * 10 + DigitValue(ds[|ds| - 1])
  }

  /** Decimal notation of a natural number, with no leading zeros. */
  function NatToString(n: nat): (r: string)
    ensures |r| >= 1 && AllDigits(r)
    ensures DigitsValue(r) == n
  {
    if n < 10 then [DigitChar(n)]
    else
      var r := NatToString(n / 10) + [DigitChar(n % 10)];
      assert r[..|r| - 1] == NatToString(n / 10);
      r
  }

  /** `n.toString()` for an integer. */
  function IntToString(n: int): (r: string)
    ensures r != [] && (n < 0 <==> r[0] == '-')
  {
    if n < 0 then "-" + NatToString(-n) else NatToString(n)
  }

  /** The longest prefix of `s` made of digits. */
  function LeadingDigits(s: string): (r: string)
    ensures r <= s && AllDigits(r)
    ensures r == s || !IsDigit(s[|r|])
  {
    if s != [] && IsDigit(s[0]) then [s[0]] + LeadingDigits(s[1..]) else []
  }

  /** `parseInt(s)`: leading whitespace skipped, an optional sign, then the longest run of digits;
      `None` is NaN, which a JSON payload carries as `null`. */
  function ParseInt(s: string): (r: Option<int>)
    ensures r.None? <==> LeadingDigits(SignDropped(TrimStart(s))) == []
  {
    var t := TrimStart(s);
    var ds := LeadingDigits(SignDropped(t));
    if ds == [] then None
    else if t[0] == '-' then Some(-(DigitsValue(ds) as int))
    else Some(DigitsValue(ds))
  }

  function SignDropped(t: string): string
  {
    if t != [] && (t[0] == '-' || t[0] == '+') then t[1..] else t
  }

  lemma {:induction false} LeadingDigitsOfDigits(s: string)
    requires AllDigits(s)
    ensures LeadingDigits(s) == s
  {
    if s != [] {
      LeadingDigitsOfDigits(s[1..]);
    }
  }

  /** Writing an integer into a text field and parsing it back gives the same integer. */
  lemma ParseIntToString(n: int)
    ensures ParseInt(IntToString(n)) == Some(n)
  {
    var m: nat := if n < 0 then -n else n;
    var digits := NatToString(m);
    var text := IntToString(n);
    assert LeadingSpaces(text) == 0 by {
      assert !IsSpace(text[0]);
    }
    LeadingDigitsOfDigits(digits);
    if n < 0 {
      assert text == "-" + digits;
      assert SignDropped(text) == digits;
    } else {
      assert SignDropped(text) == digits;
    }
  }
}
