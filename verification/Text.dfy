/** Go string helpers: strings.TrimSpace, lower case and decimal integers. */
module Text {

  /** unicode.IsSpace. */
  predicate IsSpace(c: char) {
    || c in {'\t', '\n', '\r', ' '}
    || c as int in {0x0B, 0x0C, 0x85, 0xA0, 0x1680, 0x2028, 0x2029, 0x202F, 0x205F, 0x3000}
    || 0x2000 <= c as int <= 0x200A
  }

  /** The first position from i on that is not white space. */
  function SkipSpace(s: string, i: nat): (r: nat)
    requires i <= |s|
    ensures i <= r <= |s|
    decreases |s| - i
  {
    if i < |s| && IsSpace(s[i]) then SkipSpace(s, i + 1) else i
  }

  /** The end of s[low..high] without its trailing white space. */
  function DropSpace(s: string, low: nat, high: nat): (r: nat)
    requires low <= high <= |s|
    ensures low <= r <= high
  {
    if low < high && IsSpace(s[high - 1]) then DropSpace(s, low, high - 1) else high
  }

  /** strings.TrimSpace. */
  function TrimSpace(s: string): string {
    var low := SkipSpace(s, 0);
    s[low..DropSpace(s, low, |s|)]
  }

  lemma {:induction false} SkipSpaceStops(s: string, i: nat)
    requires i <= |s|
    ensures var r := SkipSpace(s, i); r == |s| || !IsSpace(s[r])
    decreases |s| - i
  {
    if i < |s| && IsSpace(s[i]) {
      SkipSpaceStops(s, i + 1);
    }
  }

  lemma {:induction false} DropSpaceStops(s: string, low: nat, high: nat)
    requires low <= high <= |s|
    ensures var r := DropSpace(s, low, high); r == low || !IsSpace(s[r - 1])
  {
    if low < high && IsSpace(s[high - 1]) {
      DropSpaceStops(s, low, high - 1);
    }
  }

  /** Neither end of a trimmed text is white space, so trimming again changes nothing. */
  lemma TrimSpaceIdempotent(s: string)
    ensures var r := TrimSpace(s); r == "" || (!IsSpace(r[0]) && !IsSpace(r[|r| - 1]))
    ensures TrimSpace(TrimSpace(s)) == TrimSpace(s)
  {
    var low := SkipSpace(s, 0);
    SkipSpaceStops(s, 0);
    DropSpaceStops(s, low, |s|);
    var r := TrimSpace(s);
    assert SkipSpace(r, 0) == 0 && DropSpace(r, 0, |r|) == |r|;
  }

  predicate Blank(s: string) {
    TrimSpace(s) == ""
  }

  lemma {:induction false} SkipSpaceReaches(s: string, i: nat, k: nat)
    requires i <= k < |s| && !IsSpace(s[k])
    ensures SkipSpace(s, i) <= k
    decreases k - i
  {
    if i < k && IsSpace(s[i]) {
      SkipSpaceReaches(s, i + 1, k);
    }
  }

  lemma {:induction false} DropSpaceReaches(s: string, low: nat, high: nat, k: nat)
    requires low <= k < high <= |s| && !IsSpace(s[k])
    ensures DropSpace(s, low, high) > k
  {
    if k < high - 1 && IsSpace(s[high - 1]) {
      DropSpaceReaches(s, low, high - 1, k);
    }
  }

  /** A text is blank exactly if it has nothing but white space. */
  lemma BlankIffAllSpace(s: string)
    ensures Blank(s) <==> forall k :: 0 <= k < |s| ==> IsSpace(s[k])
  {
    if k :| 0 <= k < |s| && !IsSpace(s[k]) {
      SkipSpaceReaches(s, 0, k);
      DropSpaceReaches(s, SkipSpace(s, 0), |s|, k);
    } else {
      SkipSpaceStops(s, 0);
    }
  }

  lemma NotBlank(s: string)
    requires s != "" && !IsSpace(s[0])
    ensures !Blank(s)
  {
    BlankIffAllSpace(s);
  }

  /** unicode.ToLower where its result is an ASCII letter: A to Z, the Kelvin sign and the dotted capital I. */
  function LowerChar(c: char): char {
    if 'A' <= c <= 'Z' then c - 'A' + 'a'
    else if c as int == 0x212A then 'k'
    else if c as int == 0x130 then 'i'
    else c
  }

  /** Two letters are the same up to case: a capital and the small letter 32 places on, or one letter itself. */
  lemma CasesFold(c: char, d: char)
    requires (c as int) < 0x80 && (d as int) < 0x80
    ensures LowerChar(c) == LowerChar(d)
            <==> || c == d
                 || ('A' <= c <= 'Z' && d as int == c as int + 32)
                 || ('A' <= d <= 'Z' && c as int == d as int + 32)
  {
  }

  /** strings.ToLower, except that no letter is mapped to one outside ASCII. */
  function ToLower(s: string): (r: string)
    ensures |r| == |s|
  {
    seq(|s|, i requires 0 <= i < |s| => LowerChar(s[i]))
  }

  /** len of a Go string: the bytes of its UTF-8 form. */
  function ByteLength(s: string): nat {
    if s == "" then 0
    else
      var c := s[|s| - 1] as int;
      ByteLength(s[..|s| - 1]) + if c < 0x80 then 1 else if c < 0x800 then 2 else if c < 0x1_0000 then 3 else 4
  }

  lemma {:induction false} ByteLengthAdds(s: string, t: string)
    ensures ByteLength(s + t) == ByteLength(s) + ByteLength(t)
  {
    if t == "" {
      assert s + t == s;
    } else {
      assert (s + t)[..|s + t| - 1] == s + t[..|t| - 1];
      ByteLengthAdds(s, t[..|t| - 1]);
    }
  }

  /** UTF-8 takes a byte for 7 bits, two for 11, three for 16 and four beyond. */
  lemma ByteLengthOfOne(c: char)
    ensures 1 <= ByteLength([c]) <= 4
    ensures (c as int) < 0x80 <==> ByteLength([c]) == 1
    ensures (c as int) < 0x800 <==> ByteLength([c]) <= 2
    ensures (c as int) < 0x1_0000 <==> ByteLength([c]) <= 3
  {
    assert [c][..0] == "";
  }

  /** strings.Contains. */
  predicate Contains(s: string, part: string) {
    part <= s || (s != "" && Contains(s[1..], part))
  }

  predicate StandsAt(s: string, i: nat, part: string) {
    i + |part| <= |s| && s[i..i + |part|] == part
  }

  lemma StandsAtTail(s: string, i: nat, part: string)
    requires s != ""
    ensures StandsAt(s[1..], i, part) <==> StandsAt(s, i + 1, part)
  {
    if i + |part| < |s| {
      assert s[1..][i..i + |part|] == s[i + 1..i + 1 + |part|];
    }
  }

  /** The part stands somewhere in the text. */
  lemma {:induction false} ContainsIff(s: string, part: string)
    ensures Contains(s, part) <==> exists i: nat :: StandsAt(s, i, part)
  {
    assert part <= s <==> StandsAt(s, 0, part);
    if s != "" && !(part <= s) {
      ContainsIff(s[1..], part);
      if i: nat :| StandsAt(s[1..], i, part) {
        StandsAtTail(s, i, part);
      }
      if i: nat :| StandsAt(s, i, part) {
        StandsAtTail(s, i - 1, part);
      }
    }
  }

  // ---------------------------------------------------------------- decimal integers

  predicate Digits(s: string) {
    s != "" && forall i :: 0 <= i < |s| ==> '0' <= s[i] <= '9'
  }

  function ItoaNat(n: nat): (s: string)
    ensures Digits(s)
  {
    var digit := ['0' + (n % 10) as char];
    if n < 10 then digit else ItoaNat(n / 10) + digit
  }

  /** fmt's %d. */
  function Itoa(n: int): (s: string)
    ensures s != "" && ':' !in s
  {
    if n < 0 then "-" + ItoaNat(-n) else ItoaNat(n)
  }

  function ParseNat(s: string): int {
    if s == "" then 0 else 10 * ParseNat(s[..|s| - 1]) + (s[|s| - 1] as int - '0' as int)
  }

  lemma {:induction false} ParseItoaNat(n: nat)
    ensures ParseNat(ItoaNat(n)) == n
  {
    var s := ItoaNat(n);
    if n < 10 {
      assert s[..0] == "";
    } else {
      ParseItoaNat(n / 10);
      assert s[..|s| - 1] == ItoaNat(n / 10);
    }
  }

  /** Digits never start with a minus sign, so the sign can be read off. */
  lemma {:induction false} ItoaSign(n: int)
    ensures Itoa(n)[0] == '-' <==> n < 0
    ensures n < 0 ==> Itoa(n)[1..] == ItoaNat(-n)
  {
  }

  lemma ItoaInjective(m: int, n: int)
    requires Itoa(m) == Itoa(n)
    ensures m == n
  {
    ItoaSign(m);
    ItoaSign(n);
    ParseItoaNat(if m < 0 then -m else m);
    ParseItoaNat(if n < 0 then -n else n);
  }
}
