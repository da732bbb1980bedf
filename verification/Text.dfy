/** Strings as the Go and TypeScript sources use them: trimming, lower-casing, the order of
    strings.Compare, and the decimal rendering of %d.  Case folding covers the ASCII letters. */
module Text {

  predicate IsSpace(c: char) {
    c == ' ' || '\t' <= c <= '\r' || c == '\U{85}' || c == '\U{A0}'
  }

  /** Where the part without leading white space begins; `n` characters are left to look at. */
  function LeadEnd(s: string, n: nat): (i: nat)
    requires n <= |s|
    ensures |s| - n <= i <= |s| && (i < |s| ==> !IsSpace(s[i]))
    ensures forall k :: |s| - n <= k < i ==> IsSpace(s[k])
  {
    if n > 0 && IsSpace(s[|s| - n]) then LeadEnd(s, n - 1) else |s| - n
  }

  /** The length without trailing white space, of the first `n` characters. */
  function TailEnd(s: string, n: nat): (i: nat)
    requires n <= |s|
    ensures i <= n && (i > 0 ==> !IsSpace(s[i - 1]))
    ensures forall k :: i <= k < n ==> IsSpace(s[k])
  {
    if n > 0 && IsSpace(s[n - 1]) then TailEnd(s, n - 1) else n
  }

  /** strings.TrimSpace */
  function Trim(s: string): (r: string)
    ensures Trimmed(r)
    ensures r == s <==> Trimmed(s)
  {
    var a, b := LeadEnd(s, |s|), TailEnd(s, |s|);
    if a < b then s[a..b] else ""
  }

  lemma SpacesAre(c: char)
    ensures IsSpace(c) <==> c as int in {9, 10, 11, 12, 13, 32, 0x85, 0xA0}
  {
  }

  /** Trimming cuts off white space and nothing else. */
  lemma TrimCutsSpace(s: string) returns (a: nat, b: nat)
    ensures a <= b <= |s| && Trim(s) == s[a..b]
    ensures forall k :: 0 <= k < a || b <= k < |s| ==> IsSpace(s[k])
  {
    a, b := LeadEnd(s, |s|), TailEnd(s, |s|);
    if a >= b {
      a, b := 0, 0;
      assert forall k :: 0 <= k < |s| ==> IsSpace(s[k]);
    }
  }

  /** No white space at either end. */
  predicate Trimmed(s: string) {
    s == "" || (!IsSpace(s[0]) && !IsSpace(s[|s| - 1]))
  }

  function LowerChar(c: char): (r: char) {
    if 'A' <= c <= 'Z' then c + ' ' else c
  }

  lemma LowerCharKeeps(c: char)
    ensures LowerChar(LowerChar(c)) == LowerChar(c)
    ensures IsSpace(LowerChar(c)) <==> IsSpace(c)
    ensures LowerChar(c) == '/' <==> c == '/'
    ensures LowerChar(c) in {'\0', '\r', '\n'} <==> c in {'\0', '\r', '\n'}
  {
  }

  function LowerUpTo(s: string, n: nat): (r: string)
    requires n <= |s|
    ensures |r| == n
  {
    if n == 0 then [] else LowerUpTo(s, n - 1) + [LowerChar(s[n - 1])]
  }

  /** strings.ToLower */
  function Lower(s: string): (r: string)
    ensures |r| == |s|
  {
    LowerUpTo(s, |s|)
  }

  lemma {:induction false} LowerUpToAt(s: string, n: nat, i: nat)
    requires i < n <= |s|
    ensures LowerUpTo(s, n)[i] == LowerChar(s[i])
  {
    if i < n - 1 {
      LowerUpToAt(s, n - 1, i);
    }
  }

  lemma LowerAt(s: string, i: nat)
    requires i < |s|
    ensures Lower(s)[i] == LowerChar(s[i])
  {
    LowerUpToAt(s, |s|, i);
  }

  lemma LowerEverywhere(s: string)
    ensures forall i :: 0 <= i < |s| ==> Lower(s)[i] == LowerChar(s[i])
  {
    forall i | 0 <= i < |s|
      ensures Lower(s)[i] == LowerChar(s[i])
    {
      LowerAt(s, i);
    }
  }

  /** Upper-case letters become lower-case ones, and every other character stays. */
  lemma LowerReads(s: string, i: nat)
    requires i < |s|
    ensures Lower(s)[i] as int == if 'A' <= s[i] <= 'Z' then s[i] as int + 32 else s[i] as int
  {
    LowerAt(s, i);
  }

  predicate IsLower(s: string) {
    forall i :: 0 <= i < |s| ==> LowerChar(s[i]) == s[i]
  }

  lemma LowerFixed(s: string)
    ensures Lower(s) == s <==> IsLower(s)
    ensures IsLower(Lower(s))
  {
    forall i | 0 <= i < |s|
      ensures Lower(s)[i] == LowerChar(s[i]) && LowerChar(Lower(s)[i]) == Lower(s)[i]
    {
      LowerAt(s, i);
      LowerCharKeeps(s[i]);
    }
  }

  lemma LowerConcat(a: string, b: string)
    ensures Lower(a + b) == Lower(a) + Lower(b)
  {
    LowerEverywhere(a + b);
    LowerEverywhere(a);
    LowerEverywhere(b);
  }

  /** strings.EqualFold */
  predicate EqualFold(a: string, b: string) {
    Lower(a) == Lower(b)
  }

  /** The byte order of Go's < on strings. */
  predicate Less(a: string, b: string) {
    if b == "" then false
    else if a == "" then true
    else a[0] < b[0] || (a[0] == b[0] && Less(a[1..], b[1..]))
  }

  lemma {:induction false} LessTrichotomy(a: string, b: string)
    ensures !Less(a, a)
    ensures Less(a, b) ==> !Less(b, a)
    ensures Less(a, b) || a == b || Less(b, a)
  {
    if a != "" {
      LessTrichotomy(a[1..], a[1..]);
      if b != "" {
        LessTrichotomy(a[1..], b[1..]);
        if a[0] == b[0] && a[1..] == b[1..] {
          assert a == [a[0]] + a[1..] == [b[0]] + b[1..] == b;
        }
      }
    }
  }

  lemma {:induction false} LessTransitive(a: string, b: string, c: string)
    requires Less(a, b) && Less(b, c)
    ensures Less(a, c)
  {
    if a != "" && a[0] == b[0] == c[0] {
      LessTransitive(a[1..], b[1..], c[1..]);
    }
  }

  /** The strings agree up to `k`, where `a` ends first or has the smaller character. */
  predicate SmallerAt(a: string, b: string, k: nat) {
    k <= |a| && k < |b| && a[..k] == b[..k] && (k < |a| ==> a[k] < b[k])
  }

  lemma SmallerAtNext(a: string, b: string, k: nat)
    requires a != "" && b != "" && a[0] == b[0]
    ensures SmallerAt(a, b, k + 1) <==> SmallerAt(a[1..], b[1..], k)
  {
    if k + 1 <= |a| && k + 1 < |b| {
      assert a[..k + 1] == [a[0]] + a[1..][..k] && b[..k + 1] == [b[0]] + b[1..][..k];
      assert a[..k + 1] == b[..k + 1] ==> a[1..][..k] == a[..k + 1][1..] == b[1..][..k];
    }
  }

  /** A string comes before another if and only if it is a proper prefix of it, or has the smaller character where they
      differ first. */
  lemma {:induction false} LessReads(a: string, b: string)
    ensures Less(a, b) <==> exists k: nat :: SmallerAt(a, b, k)
  {
    if a != "" && b != "" && a[0] == b[0] {
      LessReads(a[1..], b[1..]);
      if Less(a, b) {
        var k: nat :| SmallerAt(a[1..], b[1..], k);
        SmallerAtNext(a, b, k);
      } else {
        forall k: nat
          ensures !SmallerAt(a, b, k)
        {
          if k > 0 {
            SmallerAtNext(a, b, k - 1);
          }
        }
      }
    } else if b != "" {
      assert SmallerAt(a, b, 0) <==> Less(a, b);
      assert forall k: nat :: k > 0 && SmallerAt(a, b, k) ==> a[..k][0] == a[0] && b[..k][0] == b[0];
    }
  }

  lemma LessOrders(a: string, b: string, c: string)
    ensures !Less(a, a) && !Less(b, b) && !Less(c, c)
    ensures (Less(a, b) || a == b || Less(b, a)) && !(Less(a, b) && Less(b, a))
    ensures Less(b, c) || b == c || Less(c, b)
    ensures Less(a, b) && Less(b, c) ==> Less(a, c)
    ensures Less(a, c) ==> Less(a, b) || a == b || Less(b, c)
  {
    LessTrichotomy(a, b);
    LessTrichotomy(b, c);
    LessTrichotomy(c, c);
    if Less(a, b) && Less(b, c) {
      LessTransitive(a, b, c);
    }
    if Less(a, c) && Less(b, a) {
      LessTransitive(b, a, c);
    }
  }

  function Digit(n: nat): (c: char)
    requires n < 10
    ensures '0' <= c <= '9' && LowerChar(c) == c
    ensures (c as int) - ('0' as int) == n
  {
    '0' + (n as char)
  }

  /** %d for a natural number. */
  function Decimal(n: nat): (s: string)
    ensures s != "" && forall i :: 0 <= i < |s| ==> LowerChar(s[i]) == s[i]
  {
    if n < 10 then [Digit(n)] else Decimal(n / 10) + [Digit(n % 10)]
  }

  /** The number that a string of decimal digits stands for. */
  function NumberOf(s: string): int {
    if s == "" then 0 else 10 * NumberOf(s[..|s| - 1]) + (s[|s| - 1] as int - '0' as int)
  }

  /** The digits stand for the number, without a leading zero. */
  lemma {:induction false} DecimalReads(n: nat)
    ensures NumberOf(Decimal(n)) == n
    ensures forall i :: 0 <= i < |Decimal(n)| ==> '0' <= Decimal(n)[i] <= '9'
    ensures n > 0 ==> Decimal(n)[0] != '0'
  {
    var s := Decimal(n);
    if n < 10 {
      assert s[..0] == "";
    } else {
      DecimalReads(n / 10);
      assert s[..|s| - 1] == Decimal(n / 10);
    }
  }

  lemma DecimalInjective(m: nat, n: nat)
    requires Decimal(m) == Decimal(n)
    ensures m == n
  {
    DecimalReads(m);
    DecimalReads(n);
  }
}
