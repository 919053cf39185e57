/** Text operations the core borrows from Python's `str`: prefix and substring tests,
    `join`, `replace`, `split`, `lower`, `capitalize` and `str(int)`. Case mapping and the
    word-character class are modelled on ASCII. */
module Strings {

  predicate StartsWith(s: string, prefix: string)
  {
    |prefix| <= |s| && s[..|prefix|] == prefix
  }

  predicate EndsWith(s: string, suffix: string)
  {
    |suffix| <= |s| && s[|s| - |suffix|..] == suffix
  }

  /** `sub` occurs in `s` at position `i`. */
  ghost predicate OccursAt(s: string, sub: string, i: int)
  {
    0 <= i && i + |sub| <= |s| && s[i..i + |sub|] == sub
  }

  /** Python's `sub in s`. */
  function Contains(s: string, sub: string): (r: bool)
    ensures r <==> exists i :: OccursAt(s, sub, i)
    decreases |s|
  {
    if StartsWith(s, sub) then
      assert OccursAt(s, sub, 0);
      true
    else if |s| <= |sub| then
      assert forall i :: !OccursAt(s, sub, i) by {
        forall i ensures !OccursAt(s, sub, i) {
          if 0 <= i && i + |sub| <= |s| { assert i == 0; }
        }
      }
      false
    else
      var r := Contains(s[1..], sub);
      assert r ==> exists i :: OccursAt(s, sub, i) by {
        if r {
          var i :| OccursAt(s[1..], sub, i);
          assert s[1..][i..i + |sub|] == s[i + 1..i + 1 + |sub|];
          assert OccursAt(s, sub, i + 1);
        }
      }
      assert (exists i :: OccursAt(s, sub, i)) ==> r by {
        if exists i :: OccursAt(s, sub, i) {
          var i :| OccursAt(s, sub, i);
          assert i != 0;
          assert s[1..][i - 1..i - 1 + |sub|] == s[i..i + |sub|];
          assert OccursAt(s[1..], sub, i - 1);
        }
      }
      r
  }

  /** `''.join(xs)`. */
  function Concat(xs: seq<string>): string
  {
    if xs == [] then "" else xs[0] + Concat(xs[1..])
  }

  lemma {:induction false} ConcatAppend(xs: seq<string>, ys: seq<string>)
    ensures Concat(xs + ys) == Concat(xs) + Concat(ys)
  {
    if xs == [] {
      assert xs + ys == ys;
    } else {
      assert (xs + ys)[1..] == xs[1..] + ys;
      ConcatAppend(xs[1..], ys);
    }
  }

  /** Concatenating one more text appends it. */
  lemma ConcatOne(xs: seq<string>, x: string)
    ensures Concat(xs + [x]) == Concat(xs) + x
  {
    ConcatAppend(xs, [x]);
    assert Concat([x]) == x + Concat([]);
  }

  /** `sep.join(xs)`. */
  function Join(sep: string, xs: seq<string>): string
  {
    if xs == [] then ""
    else if |xs| == 1 then xs[0]
    else xs[0] + sep + Join(sep, xs[1..])
  }

  /** Joining one more item appends the separator and the item. */
  lemma {:induction false} JoinAppend(sep: string, xs: seq<string>, x: string)
    requires xs != []
    ensures Join(sep, xs + [x]) == Join(sep, xs) + sep + x
  {
    if |xs| > 1 {
      assert (xs + [x])[1..] == xs[1..] + [x];
      JoinAppend(sep, xs[1..], x);
    }
  }

  /** `s.replace(pat, rep)`: every non-overlapping occurrence of `pat`, scanning from the
      left, is replaced by `rep`. */
  function ReplaceAll(s: string, pat: string, rep: string): string
    requires pat != ""
    decreases |s|
  {
    if |s| < |pat| then s
    else if s[..|pat|] == pat then rep + ReplaceAll(s[|pat|..], pat, rep)
    else [s[0]] + ReplaceAll(s[1..], pat, rep)
  }

  /** The number of occurrences `ReplaceAll` replaces. */
  function OccurrenceCount(s: string, pat: string): nat
    requires pat != ""
    decreases |s|
  {
    if |s| < |pat| then 0
    else if s[..|pat|] == pat then 1 + OccurrenceCount(s[|pat|..], pat)
    else OccurrenceCount(s[1..], pat)
  }

  /** Text without `pat` is left as it is. */
  lemma {:induction false} ReplaceAbsent(s: string, pat: string, rep: string)
    requires pat != ""
    requires !Contains(s, pat)
    ensures ReplaceAll(s, pat, rep) == s
    decreases |s|
  {
    if |s| >= |pat| {
      assert !OccursAt(s, pat, 0);
      AbsentTail(s, pat);
      ReplaceAbsent(s[1..], pat, rep);
    }
  }

  /** Dropping the first character keeps text free of `sub`. */
  lemma AbsentTail(s: string, sub: string)
    requires s != [] && !Contains(s, sub)
    ensures !Contains(s[1..], sub)
  {
    forall i ensures !OccursAt(s[1..], sub, i) {
      if 0 <= i && i + |sub| <= |s[1..]| {
        assert s[1..][i..i + |sub|] == s[i + 1..i + 1 + |sub|];
        assert !OccursAt(s, sub, i + 1);
      }
    }
  }

  /** A pattern whose first character does not recur in it cannot overlap itself, so a
      single occurrence between two texts free of it is the only one replaced. */
  lemma {:induction false} ReplaceOne(a: string, pat: string, rep: string, b: string)
    requires pat != ""
    requires forall k :: 0 < k < |pat| ==> pat[k] != pat[0]
    requires !Contains(a, pat) && !Contains(b, pat)
    ensures ReplaceAll(a + pat + b, pat, rep) == a + rep + b
    decreases |a|
  {
    var s := a + pat + b;
    if a == [] {
      assert s == pat + b;
      assert s[..|pat|] == pat && s[|pat|..] == b;
      ReplaceAbsent(b, pat, rep);
    } else {
      if |a| >= |pat| {
        assert !OccursAt(a, pat, 0);
        assert s[..|pat|] == a[..|pat|];
      } else {
        assert s[..|pat|][|a|] == pat[0] != pat[|a|];
      }
      assert s[1..] == a[1..] + pat + b;
      AbsentTail(a, pat);
      ReplaceOne(a[1..], pat, rep, b);
      assert [a[0]] + (a[1..] + rep + b) == a + rep + b;
    }
  }

  /** Each replacement changes the length by the difference of the two texts. */
  lemma {:induction false} ReplaceLength(s: string, pat: string, rep: string)
    requires pat != ""
    ensures |ReplaceAll(s, pat, rep)| == |s| + OccurrenceCount(s, pat) * (|rep| - |pat|)
    decreases |s|
  {
    if |s| >= |pat| {
      var d := |rep| - |pat|;
      if s[..|pat|] == pat {
        var rest := s[|pat|..];
        ReplaceLength(rest, pat, rep);
        var c := OccurrenceCount(rest, pat);
        assert |ReplaceAll(s, pat, rep)| == |rep| + |ReplaceAll(rest, pat, rep)|;
        assert OccurrenceCount(s, pat) == c + 1;
        assert |s| == |pat| + |rest|;
        MulStep(c, d);
      } else {
        ReplaceLength(s[1..], pat, rep);
        assert |ReplaceAll(s, pat, rep)| == 1 + |ReplaceAll(s[1..], pat, rep)|;
        assert OccurrenceCount(s, pat) == OccurrenceCount(s[1..], pat);
      }
    }
  }

  /** What `ReplaceAbsent` and `ReplaceLength` state, for one text. */
  lemma ReplaceFacts(s: string, pat: string, rep: string)
    requires pat != ""
    ensures !Contains(s, pat) ==> ReplaceAll(s, pat, rep) == s
    ensures |ReplaceAll(s, pat, rep)| == |s| + OccurrenceCount(s, pat) * (|rep| - |pat|)
  {
    ReplaceLength(s, pat, rep);
    if !Contains(s, pat) {
      ReplaceAbsent(s, pat, rep);
    }
  }

  lemma MulStep(c: int, d: int)
    ensures (c + 1) * d == c * d + d
  {
  }

  /** `s.split(sep)[0]`: the text before the first `sep`, or all of `s` when there is none. */
  function BeforeFirst(s: string, sep: char): (r: string)
    ensures StartsWith(s, r)
    ensures sep !in r
    ensures |r| < |s| ==> s[|r|] == sep
  {
    if s == [] || s[0] == sep then "" else [s[0]] + BeforeFirst(s[1..], sep)
  }

  predicate IsUpper(c: char) { 'A' <= c <= 'Z' }
  predicate IsLowerCase(c: char) { 'a' <= c <= 'z' }
  predicate IsDigit(c: char) { '0' <= c <= '9' }

  /** The regular-expression class `\w`. */
  predicate IsWordChar(c: char)
  {
    IsUpper(c) || IsLowerCase(c) || IsDigit(c) || c == '_'
  }

  predicate AllWordChars(s: string)
  {
    forall i :: 0 <= i < |s| ==> IsWordChar(s[i])
  }

  function LowerChar(c: char): (r: char)
    ensures IsUpper(c) ==> IsLowerCase(r)
    ensures !IsUpper(c) ==> r == c
  {
    if IsUpper(c) then (c as int - 'A' as int + 'a' as int) as char else c
  }

  function UpperChar(c: char): (r: char)
    ensures IsLowerCase(c) ==> IsUpper(r) && LowerChar(r) == c
    ensures !IsLowerCase(c) ==> r == c
  {
    if IsLowerCase(c) then (c as int - 'a' as int + 'A' as int) as char else c
  }

  /** `s.lower()`. */
  function Lower(s: string): (r: string)
    ensures |r| == |s|
    ensures forall i :: 0 <= i < |s| ==> r[i] == LowerChar(s[i])
  {
    seq(|s|, i requires 0 <= i < |s| => LowerChar(s[i]))
  }

  /** Lower-casing works character by character, so it distributes over concatenation. */
  lemma LowerAppend(a: string, b: string)
    ensures Lower(a + b) == Lower(a) + Lower(b)
  {
  }

  /** Two texts inside `\w` stay inside it when joined. */
  lemma WordCharsAppend(a: string, b: string)
    requires AllWordChars(a) && AllWordChars(b)
    ensures AllWordChars(a + b)
  {
  }

  /** `s.capitalize()`: first character upper case, the rest lower case. */
  function Capitalize(s: string): string
  {
    if s == [] then "" else [UpperChar(s[0])] + Lower(s[1..])
  }

  /** Capitalizing never changes what lower-casing yields. */
  lemma LowerCapitalize(s: string)
    ensures |Capitalize(s)| == |s|
    ensures Lower(Capitalize(s)) == Lower(s)
  {
    if s != [] {
      var c := Capitalize(s);
      assert c[0] == UpperChar(s[0]);
      assert LowerChar(UpperChar(s[0])) == LowerChar(s[0]);
      forall i | 1 <= i < |s| ensures LowerChar(c[i]) == LowerChar(s[i]) {
        assert c[i] == LowerChar(s[i]);
      }
    }
  }

  /** The first character of a capitalized text is not lower case and no later one is upper
      case. */
  lemma CapitalizeCases(s: string)
    ensures s != [] ==> !IsLowerCase(Capitalize(s)[0])
    ensures forall i :: 0 < i < |Capitalize(s)| ==> !IsUpper(Capitalize(s)[i])
  {
    if s != [] {
      var c := Capitalize(s);
      assert c[0] == UpperChar(s[0]);
      forall i | 0 < i < |c| ensures !IsUpper(c[i]) {
        assert c[i] == LowerChar(s[i]);
      }
    }
  }

  /** Case mapping keeps a name inside `\w`. */
  lemma CapitalizeWordChars(s: string)
    requires AllWordChars(s)
    ensures AllWordChars(Capitalize(s))
  {
    if s != [] {
      var c := Capitalize(s);
      forall i | 0 <= i < |c| ensures IsWordChar(c[i]) {
        if i == 0 { assert c[0] == UpperChar(s[0]); }
        else { assert c[i] == LowerChar(s[i]); }
      }
    }
  }

  function DigitChar(d: nat): char
    requires d < 10
  {
    ('0' as int + d) as char
  }

  /** `str(n)` for a natural number. */
  function NatToString(n: nat): (r: string)
    ensures |r| > 0
    ensures forall i :: 0 <= i < |r| ==> IsDigit(r[i])
  {
    if n < 10 then [DigitChar(n)] else NatToString(n / 10) + [DigitChar(n % 10)]
  }

  /** Reads a decimal numeral back (the inverse of `NatToString`). */
  function ParseDigits(s: string): nat
    requires forall i :: 0 <= i < |s| ==> IsDigit(s[i])
  {
    if s == [] then 0
    else
      var last := s[|s| - 1];
      assert IsDigit(last);
      10 * ParseDigits(s[..|s| - 1]) + (last as int - '0' as int)
  }

  lemma {:induction false} NatToStringRoundTrip(n: nat)
    ensures ParseDigits(NatToString(n)) == n
  {
    var r := NatToString(n);
    if n >= 10 {
      NatToStringRoundTrip(n / 10);
      assert r[..|r| - 1] == NatToString(n / 10);
    }
  }
}
