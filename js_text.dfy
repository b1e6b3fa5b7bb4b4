/** The JavaScript built-ins the task core leans on, over strings as sequences of
    characters: truthiness, String.prototype.trim, Number.prototype.toString, parseInt,
    and the case-insensitive substring test that a literal `$regex` with option `i` is. */
module JsText {
  import opened Common

  /** JavaScript truthiness of a string that may be missing: absent and "" are falsy. */
  predicate Truthy(v: Option<string>) {
    v.Some? && v.value != ""
  }

  // ---------------------------------------------------------------------------
  // Whitespace and trim
  // ---------------------------------------------------------------------------

  /** The ECMAScript WhiteSpace and LineTerminator code points: what trim removes and
      what parseInt skips before the number. */
  predicate IsWhitespace(c: char) {
    || c == '\t' || c == '\n' || c == '\U{000B}' || c == '\U{000C}' || c == '\r'
    || c == ' ' || c == '\U{00A0}' || c == '\U{1680}' || ('\U{2000}' <= c <= '\U{200A}')
    || c == '\U{2028}' || c == '\U{2029}' || c == '\U{202F}' || c == '\U{205F}'
    || c == '\U{3000}' || c == '\U{FEFF}'
  }

  predicate AllWhitespace(s: string) {
    forall i :: 0 <= i < |s| ==> IsWhitespace(s[i])
  }

  /** Neither end of `s` is whitespace. */
  predicate IsTrimmed(s: string) {
    |s| == 0 || (!IsWhitespace(s[0]) && !IsWhitespace(s[|s| - 1]))
  }

  /** Length of the whitespace run that starts `s`. */
  function LeadingWhitespace(s: string): (n: nat)
    ensures n <= |s| && AllWhitespace(s[..n])
    ensures n < |s| ==> !IsWhitespace(s[n])
  {
    if |s| > 0 && IsWhitespace(s[0]) then 1 + LeadingWhitespace(s[1..]) else 0
  }

  /** Length of the whitespace run that ends `s`. */
  function TrailingWhitespace(s: string): (n: nat)
    ensures n <= |s| && AllWhitespace(s[|s| - n..])
    ensures n < |s| ==> !IsWhitespace(s[|s| - 1 - n])
  {
    if |s| > 0 && IsWhitespace(s[|s| - 1]) then 1 + TrailingWhitespace(s[..|s| - 1]) else 0
  }

  /** String.prototype.trim: `s` without its leading and trailing whitespace. */
  function Trim(s: string): (r: string)
    ensures IsTrimmed(r) && |r| <= |s|
  {
    var lead := LeadingWhitespace(s);
    var mid := s[lead..];
    var trail := TrailingWhitespace(mid);
    var r := mid[..|mid| - trail];
    assert r == s[lead..|s| - trail];
    assert |r| > 0 ==> r[0] == mid[0] && r[|r| - 1] == mid[|mid| - 1 - trail];
    r
  }

  lemma {:induction false} LeadingWhitespaceIs(s: string, k: nat)
    requires k <= |s| && AllWhitespace(s[..k])
    requires k < |s| ==> !IsWhitespace(s[k])
    ensures LeadingWhitespace(s) == k
  {
    if k > 0 {
      assert IsWhitespace(s[..k][0]);
      assert s[1..][..k - 1] == s[..k][1..];
      LeadingWhitespaceIs(s[1..], k - 1);
    }
  }

  lemma {:induction false} TrailingWhitespaceIs(s: string, k: nat)
    requires k <= |s| && AllWhitespace(s[|s| - k..])
    requires k < |s| ==> !IsWhitespace(s[|s| - 1 - k])
    ensures TrailingWhitespace(s) == k
  {
    if k > 0 {
      assert IsWhitespace(s[|s| - k..][k - 1]);
      var init := s[..|s| - 1];
      assert init[|init| - (k - 1)..] == s[|s| - k..][..k - 1];
      TrailingWhitespaceIs(init, k - 1);
    }
  }

  /** Trimming whitespace padding off an already trimmed string gives back exactly that
      string: trim's result is determined by the non-whitespace core. */
  lemma {:induction false} TrimPadded(lead: string, core: string, trail: string)
    requires AllWhitespace(lead) && AllWhitespace(trail) && IsTrimmed(core)
    ensures Trim(lead + core + trail) == core
  {
    var s := lead + core + trail;
    if core == [] {
      assert s == lead + trail;
      assert AllWhitespace(s[..|s|]) by {
        forall i | 0 <= i < |s| ensures IsWhitespace(s[i]) {
          if i < |lead| { assert s[i] == lead[i]; } else { assert s[i] == trail[i - |lead|]; }
        }
      }
      LeadingWhitespaceIs(s, |s|);
      TrailingWhitespaceIs(s[|s|..], 0);
    } else {
      assert s[..|lead|] == lead;
      assert s[|lead|] == core[0];
      LeadingWhitespaceIs(s, |lead|);
      var rest := s[|lead|..];
      assert rest == core + trail;
      assert rest[|rest| - |trail|..] == trail;
      assert rest[|rest| - 1 - |trail|] == core[|core| - 1];
      TrailingWhitespaceIs(rest, |trail|);
      assert s[|lead|..|s| - |trail|] == core;
    }
  }

  lemma AllWhitespaceConcat(a: string, b: string)
    requires AllWhitespace(a) && AllWhitespace(b)
    ensures AllWhitespace(a + b)
  {
    forall i | 0 <= i < |a + b| ensures IsWhitespace((a + b)[i]) {
      if i < |a| { assert (a + b)[i] == a[i]; } else { assert (a + b)[i] == b[i - |a|]; }
    }
  }

  /** Every string is some whitespace, then its trimmed form, then some whitespace. */
  lemma TrimSplits(s: string) returns (lead: string, trail: string)
    ensures AllWhitespace(lead) && AllWhitespace(trail)
    ensures s == lead + Trim(s) + trail
  {
    var a := LeadingWhitespace(s);
    var mid := s[a..];
    var b := TrailingWhitespace(mid);
    assert mid[|mid| - b..] == s[|s| - b..];
    assert Trim(s) == s[a..|s| - b];
    lead, trail := s[..a], s[|s| - b..];
    SplitAt(s, a, |s| - b);
  }

  lemma SplitAt(s: string, a: nat, c: nat)
    requires a <= c <= |s|
    ensures s == s[..a] + s[a..c] + s[c..]
  {
  }

  /** A string with no whitespace at either end is left as it is. */
  lemma TrimKeepsTrimmed(s: string)
    requires IsTrimmed(s)
    ensures Trim(s) == s
  {
    var e: string := [];
    assert s == e + s + e;
    TrimPadded(e, s, e);
  }

  /** Trimming twice is trimming once. */
  lemma TrimIdempotent(s: string)
    ensures Trim(Trim(s)) == Trim(s)
  {
    TrimKeepsTrimmed(Trim(s));
  }

  /** Whitespace put around a string never changes what trimming it yields. */
  lemma TrimIgnoresPadding(lead: string, s: string, trail: string)
    requires AllWhitespace(lead) && AllWhitespace(trail)
    ensures Trim(lead + s + trail) == Trim(s)
  {
    var l, t := TrimSplits(s);
    var core := Trim(s);
    AllWhitespaceConcat(lead, l);
    AllWhitespaceConcat(t, trail);
    Regroup(lead, l, core, t, trail);
    TrimPadded(lead + l, core, t + trail);
  }

  lemma Regroup(a: string, b: string, c: string, d: string, e: string)
    ensures a + (b + c + d) + e == (a + b) + c + (d + e)
  {
  }

  /** Trim empties exactly the whitespace-only strings. */
  lemma TrimEmptyIffWhitespace(s: string)
    ensures Trim(s) == [] <==> AllWhitespace(s)
  {
    if AllWhitespace(s) {
      var e: string := [];
      assert s == s + e + e;
      TrimPadded(s, e, e);
    } else {
      var l, t := TrimSplits(s);
      AllWhitespaceConcat(l, t);
    }
  }

  // ---------------------------------------------------------------------------
  // Case-insensitive literal search
  // ---------------------------------------------------------------------------

  /** ASCII case folding. */
  function Lower(c: char): char {
    if 'A' <= c <= 'Z' then (c as int + 32) as char else c
  }

  /** `pattern` occurs in `text` at offset `i`, ignoring ASCII case. */
  predicate MatchesAt(text: string, pattern: string, i: nat) {
    i + |pattern| <= |text| && forall k :: 0 <= k < |pattern| ==> Lower(text[i + k]) == Lower(pattern[k])
  }

  function ContainsFrom(text: string, pattern: string, i: nat): (r: bool)
    decreases |text| - i
    ensures r <==> exists j :: i <= j && MatchesAt(text, pattern, j)
  {
    if i + |pattern| > |text| then false
    else MatchesAt(text, pattern, i) || ContainsFrom(text, pattern, i + 1)
  }

  /** `pattern` occurs somewhere in `text`, ignoring ASCII case: what a `$regex` query
      with option `i` decides for a pattern without metacharacters. */
  function ContainsIgnoringCase(text: string, pattern: string): (r: bool)
    ensures r <==> exists j :: MatchesAt(text, pattern, j)
  {
    ContainsFrom(text, pattern, 0)
  }

  /** Characters with a meaning of their own in a regular expression. */
  predicate IsRegexMeta(c: char) {
    c in "\\^$.|?*+()[]{}"
  }

  predicate IsLiteralPattern(s: string) {
    forall i :: 0 <= i < |s| ==> !IsRegexMeta(s[i])
  }

  // ---------------------------------------------------------------------------
  // Numbers as text
  // ---------------------------------------------------------------------------

  function DigitChar(d: nat): char
    requires d < 10
  {
    ('0' as int + d) as char
  }

  /** Number.prototype.toString of a natural number: its decimal digits, no leading zero. */
  function DecimalString(n: nat): (s: string)
    ensures |s| >= 1 && (s[0] == '0' ==> n == 0)
    ensures forall i :: 0 <= i < |s| ==> '0' <= s[i] <= '9'
  {
    if n < 10 then [DigitChar(n)] else DecimalString(n / 10) + [DigitChar(n % 10)]
  }

  /** Value of an ASCII digit or letter as a digit of bases up to 36; 36 for anything else. */
  function DigitValue(c: char): nat {
    if '0' <= c <= '9' then c as int - '0' as int
    else if 'a' <= c <= 'z' then c as int - 'a' as int + 10
    else if 'A' <= c <= 'Z' then c as int - 'A' as int + 10
    else 36
  }

  predicate IsDigitIn(c: char, radix: nat) {
    DigitValue(c) < radix
  }

  /** Length of the run of base-`radix` digits that starts `s`. */
  function DigitPrefix(s: string, radix: nat): (n: nat)
    ensures n <= |s|
    ensures forall i :: 0 <= i < n ==> IsDigitIn(s[i], radix)
    ensures n < |s| ==> !IsDigitIn(s[n], radix)
  {
    if |s| > 0 && IsDigitIn(s[0], radix) then 1 + DigitPrefix(s[1..], radix) else 0
  }

  /** The number that `digits` denote in base `radix`, most significant digit first. */
  function DigitsValue(digits: string, radix: nat): nat {
    if digits == [] then 0
    else DigitsValue(digits[..|digits| - 1], radix) * radix + DigitValue(digits[|digits| - 1])
  }

  /** parseInt(s) without a radix: skip leading whitespace, read an optional sign and an
      optional 0x/0X prefix (which selects base 16), then the longest run of digits.
      None stands for NaN, the result when that run is empty. */
  function ParseInt(s: string): (r: Option<int>)
    ensures AllWhitespace(s) ==> r == None
    ensures r.Some? ==> exists i :: 0 <= i < |s| && '0' <= s[i] <= '9'
  {
    var t := s[LeadingWhitespace(s)..];
    var negative := |t| > 0 && t[0] == '-';
    var unsigned := if |t| > 0 && (t[0] == '+' || t[0] == '-') then t[1..] else t;
    var hex := |unsigned| >= 2 && unsigned[0] == '0' && (unsigned[1] == 'x' || unsigned[1] == 'X');
    var radix := if hex then 16 else 10;
    var body := if hex then unsigned[2..] else unsigned;
    var digits := body[..DigitPrefix(body, radix)];
    if digits == [] then None
    else
      var magnitude: int := DigitsValue(digits, radix);
      Some(if negative then -magnitude else magnitude)
  }

  lemma {:induction false} DigitPrefixAll(s: string, radix: nat)
    requires forall i :: 0 <= i < |s| ==> IsDigitIn(s[i], radix)
    ensures DigitPrefix(s, radix) == |s|
  {
    if |s| > 0 {
      DigitPrefixAll(s[1..], radix);
    }
  }

  lemma {:induction false} DecimalStringValue(n: nat)
    ensures DigitsValue(DecimalString(n), 10) == n
  {
    if n >= 10 {
      var s := DecimalString(n);
      assert s[..|s| - 1] == DecimalString(n / 10);
      DecimalStringValue(n / 10);
    }
  }

  /** parseInt reads back the page number that toString wrote. */
  lemma ParseDecimal(n: nat)
    ensures ParseInt(DecimalString(n)) == Some(n)
  {
    var s := DecimalString(n);
    LeadingWhitespaceIs(s, 0);
    assert s[0] != '0' || |s| == 1;
    DigitPrefixAll(s, 10);
    assert s[..|s|] == s;
    DecimalStringValue(n);
  }
}
