/** The string operations the components build on: splitting, trimming and joining. */
module Text {
  /** Go's unicode.IsSpace. */
  predicate IsSpace(c: char) {
    || '\t' <= c <= '\r' || c == ' ' || c == '\U{0085}' || c == '\U{00A0}' || c == '\U{1680}'
    || '\U{2000}' <= c <= '\U{200A}' || c == '\U{2028}' || c == '\U{2029}' || c == '\U{202F}'
    || c == '\U{205F}' || c == '\U{3000}'
  }

  lemma {:induction false} SpacesAre(c: char)
    ensures var n := c as int;
      IsSpace(c) <==>
        || 9 <= n <= 13 || n == 32 || n == 133 || n == 160 || n == 5760 || 8192 <= n <= 8202
        || n == 8232 || n == 8233 || n == 8239 || n == 8287 || n == 12288
  {}

  predicate Trimmed(s: string) { s == "" || (!IsSpace(s[0]) && !IsSpace(s[|s| - 1])) }

  predicate AllSpace(s: string) { forall c :: c in s ==> IsSpace(c) }

  function TrimLeft(s: string): string {
    if s == "" || !IsSpace(s[0]) then s else TrimLeft(s[1..])
  }

  function TrimRight(s: string): string {
    if s == "" || !IsSpace(s[|s| - 1]) then s else TrimRight(s[..|s| - 1])
  }

  /** Go's strings.TrimSpace. */
  function TrimSpace(s: string): string { TrimRight(TrimLeft(s)) }

  lemma {:induction false} SliceOfRest(s: string, n: nat)
    requires 1 <= n <= |s|
    ensures s[..n] == [s[0]] + s[1..][..n - 1]
  {}

  lemma {:induction false} TrimLeftStrips(s: string)
    ensures var t := TrimLeft(s);
      && (t == "" || !IsSpace(t[0]))
      && |t| <= |s| && s[|s| - |t|..] == t && AllSpace(s[..|s| - |t|])
  {
    if s != "" && IsSpace(s[0]) {
      TrimLeftStrips(s[1..]);
      var t := TrimLeft(s);
      SliceOfRest(s, |s| - |t|);
    }
  }

  lemma {:induction false} TrimRightStrips(s: string)
    ensures var t := TrimRight(s);
      && (t == "" || !IsSpace(t[|t| - 1]))
      && t <= s && AllSpace(s[|t|..])
  {
    if s != "" && IsSpace(s[|s| - 1]) {
      TrimRightStrips(s[..|s| - 1]);
      var t := TrimRight(s);
      assert s[|t|..] == s[..|s| - 1][|t|..] + [s[|s| - 1]];
    }
  }

  /** `t` is `s` without `left` leading and some trailing characters, all of them white. */
  predicate Strips(s: string, t: string, left: nat) {
    && left + |t| <= |s| && s[left..left + |t|] == t
    && AllSpace(s[..left]) && AllSpace(s[left + |t|..])
  }

  lemma {:induction false} SliceOfTail(s: string, left: nat, n: nat)
    requires left + n <= |s|
    ensures s[left..left + n] == s[left..][..n] && s[left + n..] == s[left..][n..]
  {}

  /** Trimming takes white space only, and all of it at both ends. */
  lemma {:induction false} TrimSpaceStrips(s: string) returns (left: nat)
    ensures Trimmed(TrimSpace(s)) && Strips(s, TrimSpace(s), left)
  {
    hide TrimLeft, TrimRight;
    TrimLeftStrips(s);
    var tail := TrimLeft(s);
    TrimRightStrips(tail);
    var t := TrimRight(tail);
    left := |s| - |tail|;
    SliceOfTail(s, left, |t|);
  }

  lemma {:induction false} TrimLeavesTrimmed(s: string)
    requires Trimmed(s)
    ensures TrimSpace(s) == s
  {}

  /** Go's strings.Split on a one-character separator. */
  function Split(s: string, sep: char): (parts: seq<string>)
    ensures |parts| >= 1
    ensures forall p :: p in parts ==> sep !in p
  {
    if s == "" then [""]
    else
      var rest := Split(s[1..], sep);
      if s[0] == sep then [""] + rest else [[s[0]] + rest[0]] + rest[1..]
  }

  function Join(parts: seq<string>, sep: char): string {
    if parts == [] then ""
    else if |parts| == 1 then parts[0]
    else parts[0] + [sep] + Join(parts[1..], sep)
  }

  lemma {:induction false} SplitPiece(p: string, sep: char)
    requires sep !in p
    ensures Split(p, sep) == [p]
  {
    if p != "" {
      SplitPiece(p[1..], sep);
      assert p == [p[0]] + p[1..];
    }
  }

  lemma {:induction false} SplitCons(p: string, rest: string, sep: char)
    requires sep !in p
    ensures Split(p + [sep] + rest, sep) == [p] + Split(rest, sep)
  {
    var s := p + [sep] + rest;
    if p == "" {
      assert s[1..] == rest;
    } else {
      assert s[1..] == p[1..] + [sep] + rest;
      SplitCons(p[1..], rest, sep);
      assert p == [p[0]] + p[1..];
    }
  }

  lemma {:induction false} SplitJoin(parts: seq<string>, sep: char)
    requires parts != [] && forall p :: p in parts ==> sep !in p
    ensures Split(Join(parts, sep), sep) == parts
  {
    if |parts| == 1 {
      SplitPiece(parts[0], sep);
    } else {
      SplitCons(parts[0], Join(parts[1..], sep), sep);
      SplitJoin(parts[1..], sep);
    }
  }

  /** A separator that does not occur in the first halves cuts a string in one way only. */
  lemma {:induction false} CutIsUnique(a: string, b: string, c: string, d: string, sep: char)
    requires sep !in a && sep !in c && a + [sep] + b == c + [sep] + d
    ensures a == c && b == d
  {
    var s, t := a + [sep] + b, c + [sep] + d;
    assert s[|a|] == sep && t[|c|] == sep;
    assert |a| == |c|;
    assert a == s[..|a|] && c == t[..|c|];
    assert b == s[|a| + 1..] && d == t[|c| + 1..];
  }

  /** Go's strings.Contains. */
  predicate OccursAt(s: string, sub: string, i: int) {
    0 <= i <= |s| - |sub| && s[i..i + |sub|] == sub
  }

  predicate Contains(s: string, sub: string) {
    exists i | 0 <= i <= |s| :: OccursAt(s, sub, i)
  }

  lemma {:induction false} ContainsExactlyWhen(s: string, sub: string)
    ensures Contains(s, sub) <==> exists before: string, after: string :: s == before + sub + after
  {
    if i :| 0 <= i <= |s| && OccursAt(s, sub, i) {
      assert s == s[..i] + sub + s[i + |sub|..];
    }
    if before: string, after: string :| s == before + sub + after {
      assert OccursAt(s, sub, |before|);
    }
  }

  // ----- the order of strings -----

  /** Go compares strings character by character; a proper prefix comes first. */
  predicate Less(a: string, b: string) {
    if b == "" then false
    else if a == "" then true
    else a[0] < b[0] || (a[0] == b[0] && Less(a[1..], b[1..]))
  }

  lemma {:induction false} LessIsTotal(a: string, b: string)
    ensures Less(a, b) ==> !Less(b, a)
    ensures a != b ==> Less(a, b) || Less(b, a)
  {
    if a != "" && b != "" {
      LessIsTotal(a[1..], b[1..]);
      assert a == [a[0]] + a[1..] && b == [b[0]] + b[1..];
    }
  }

  lemma {:induction false} LessIsTransitive(a: string, b: string, c: string)
    requires Less(a, b) && Less(b, c)
    ensures Less(a, c)
  {
    if a != "" && a[0] == b[0] == c[0] {
      LessIsTransitive(a[1..], b[1..], c[1..]);
    }
  }

  /** `cut` is `s`, or its first `max` characters and the mark if it is longer. */
  predicate CutAt(s: string, max: nat, mark: string, cut: string) {
    && (|s| <= max ==> cut == s)
    && (|s| > max ==> |cut| == max + |mark| && cut[..max] == s[..max] && cut[max..] == mark)
  }

  // ----- numbers -----

  function Digit(d: nat): char
    requires d < 10
  {
    ('0' as int + d) as char
  }

  function Decimal(n: nat): string {
    if n < 10 then [Digit(n)] else Decimal(n / 10) + [Digit(n % 10)]
  }

  lemma {:induction false} DecimalIsInjective(m: nat, n: nat)
    ensures Decimal(m) == Decimal(n) <==> m == n
    ensures forall c :: c in Decimal(m) ==> '0' <= c <= '9'
    ensures |Decimal(m)| >= 1
    decreases m
  {
    if m >= 10 {
      DecimalIsInjective(m / 10, n / 10);
      if n >= 10 {
        var a, b := Decimal(m), Decimal(n);
        assert a[..|a| - 1] == Decimal(m / 10) && b[..|b| - 1] == Decimal(n / 10);
        assert a[|a| - 1] == Digit(m % 10) && b[|b| - 1] == Digit(n % 10);
      }
    } else if n >= 10 {
      DecimalNotEmpty(n / 10);
    }
  }

  /** The number that a string of digits stands for. */
  function Value(s: string): int {
    if s == "" then 0 else 10 * Value(s[..|s| - 1]) + (s[|s| - 1] as int - '0' as int)
  }

  lemma {:induction false} DecimalStandsFor(n: nat)
    ensures Value(Decimal(n)) == n
  {
    if n >= 10 {
      var s := Decimal(n);
      assert s[..|s| - 1] == Decimal(n / 10);
      DecimalStandsFor(n / 10);
    } else {
      assert Decimal(n)[..0] == "";
    }
  }

  lemma {:induction false} DecimalNotEmpty(n: nat)
    ensures |Decimal(n)| >= 1
  {}
}
