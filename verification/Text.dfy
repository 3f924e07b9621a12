/** The string functions of Go's standard library that the checks rely on. */
module Text {
  import opened Options

  // ---------------------------------------------------------------- strings.Split and strings.Join

  function Split(s: string, sep: char): (parts: seq<string>)
    ensures |parts| >= 1
    ensures forall p :: p in parts ==> sep !in p
  {
    if s == "" then [""]
    else
      var rest := Split(s[1..], sep);
      if s[0] == sep then [""] + rest
      else
        assert rest[0] in rest;
        [[s[0]] + rest[0]] + rest[1..]
  }

  function Join(parts: seq<string>, sep: char): string {
    if parts == [] then ""
    else if |parts| == 1 then parts[0]
    else parts[0] + [sep] + Join(parts[1..], sep)
  }

  lemma {:induction false} SplitWithout(s: string, sep: char)
    requires sep !in s
    ensures Split(s, sep) == [s]
  {
    if s != "" {
      SplitWithout(s[1..], sep);
      assert s[0] in s;
      assert [s[0]] + s[1..] == s;
    }
  }

  lemma {:induction false} SplitConcat(a: string, b: string, sep: char)
    ensures Split(a + [sep] + b, sep) == Split(a, sep) + Split(b, sep)
  {
    var s := a + [sep] + b;
    if a == "" {
      assert s[1..] == b;
    } else {
      assert s[1..] == a[1..] + [sep] + b;
      SplitConcat(a[1..], b, sep);
    }
  }

  lemma {:induction false} SplitJoin(parts: seq<string>, sep: char)
    requires parts != [] && forall p :: p in parts ==> sep !in p
    ensures Split(Join(parts, sep), sep) == parts
  {
    SplitWithout(parts[0], sep);
    if |parts| > 1 {
      SplitJoin(parts[1..], sep);
      SplitConcat(parts[0], Join(parts[1..], sep), sep);
    }
  }

  lemma {:induction false} JoinSplit(s: string, sep: char)
    ensures Join(Split(s, sep), sep) == s
  {
    if s != "" {
      var rest := Split(s[1..], sep);
      JoinSplit(s[1..], sep);
      if s[0] == sep {
        assert ([""] + rest)[1..] == rest;
      } else {
        assert ([[s[0]] + rest[0]] + rest[1..])[1..] == rest[1..];
      }
      assert s == [s[0]] + s[1..];
    }
  }

  // ---------------------------------------------------------------- strings.Trim and its relatives

  function TrimLeft(s: string, cut: char -> bool): (r: string)
    ensures r != "" ==> !cut(r[0])
  {
    if s == "" || !cut(s[0]) then s else TrimLeft(s[1..], cut)
  }

  function TrimRight(s: string, cut: char -> bool): (r: string)
    ensures r <= s
    ensures r != "" ==> !cut(r[|r| - 1])
  {
    if s == "" || !cut(s[|s| - 1]) then s else TrimRight(s[..|s| - 1], cut)
  }

  function Trim(s: string, cut: char -> bool): (r: string)
    ensures Trimmed(r, cut)
  {
    TrimRight(TrimLeft(s, cut), cut)
  }

  predicate Trimmed(s: string, cut: char -> bool) {
    s != "" ==> !cut(s[0]) && !cut(s[|s| - 1])
  }

  lemma TrimmedStays(s: string, cut: char -> bool)
    requires Trimmed(s, cut)
    ensures Trim(s, cut) == s
  {
  }

  lemma {:induction false} TrimPrefixOfCut(pre: string, s: string, cut: char -> bool)
    requires (forall c :: c in pre ==> cut(c)) && Trimmed(s, cut)
    ensures Trim(pre + s, cut) == s
  {
    if pre == "" {
      assert pre + s == s;
    } else {
      assert (pre + s)[1..] == pre[1..] + s && pre[0] in pre;
      TrimPrefixOfCut(pre[1..], s, cut);
    }
  }

  lemma {:induction false} TrimLeftIsSuffix(s: string, cut: char -> bool)
    ensures forall c :: c in TrimLeft(s, cut) ==> c in s
  {
    if s != "" && cut(s[0]) { TrimLeftIsSuffix(s[1..], cut); }
  }

  lemma TrimKeepsCharacters(s: string, cut: char -> bool)
    ensures forall c :: c in Trim(s, cut) ==> c in s
  {
    TrimLeftIsSuffix(s, cut);
  }

  lemma {:induction false} TrimLeftSkips(pre: string, s: string, cut: char -> bool)
    requires forall c :: c in pre ==> cut(c)
    ensures TrimLeft(pre + s, cut) == TrimLeft(s, cut)
  {
    if pre == "" {
      assert pre + s == s;
    } else {
      assert (pre + s)[1..] == pre[1..] + s && pre[0] in pre;
      TrimLeftSkips(pre[1..], s, cut);
    }
  }

  lemma {:induction false} TrimRightSkips(s: string, post: string, cut: char -> bool)
    requires forall c :: c in post ==> cut(c)
    ensures TrimRight(s + post, cut) == TrimRight(s, cut)
  {
    if post == "" {
      assert s + post == s;
    } else {
      var n := |post| - 1;
      assert (s + post)[..|s + post| - 1] == s + post[..n] && post[n] in post;
      TrimRightSkips(s, post[..n], cut);
    }
  }

  /** Trimming drops exactly what is cut on both sides. */
  lemma TrimAround(pre: string, s: string, post: string, cut: char -> bool)
    requires (forall c :: c in pre ==> cut(c)) && (forall c :: c in post ==> cut(c)) && Trimmed(s, cut)
    ensures Trim(pre + s + post, cut) == s
  {
    assert pre + s + post == pre + (s + post);
    TrimLeftSkips(pre, s + post, cut);
    if s == "" {
      assert s + post == post + "" && TrimLeft("", cut) == "";
      TrimLeftSkips(post, "", cut);
    } else {
      assert TrimLeft(s + post, cut) == s + post;
      TrimRightSkips(s, post, cut);
    }
  }

  /** unicode.IsSpace. */
  predicate IsSpace(c: char) {
    var u := c as int;
    || 9 <= u <= 13 || u == 0x20 || u == 0x85 || u == 0xA0 || u == 0x1680
    || 0x2000 <= u <= 0x200A || u == 0x2028 || u == 0x2029 || u == 0x202F || u == 0x205F || u == 0x3000
  }

  /** Among the ASCII characters these are white space. */
  lemma AsciiSpaces(c: char)
    requires c as int < 0x80
    ensures IsSpace(c) <==> c in " \t\n\r\U{000b}\U{000c}"
  {
  }

  function TrimSpace(s: string): string {
    Trim(s, IsSpace)
  }

  // ---------------------------------------------------------------- numbers

  predicate IsDigit(c: char) {
    '0' <= c <= '9'
  }

  predicate AllDigits(s: string) {
    forall c :: c in s ==> IsDigit(c)
  }

  function DigitChar(d: nat): (c: char)
    requires d < 10
    ensures IsDigit(c) && DigitOf(c) == d
  {
    '0' + d as char
  }

  /** The canonical decimal. */
  function Decimal(n: nat): (s: string)
    ensures s != "" && AllDigits(s)
    ensures s[0] == '0' ==> s == "0"
  {
    if n < 10 then [DigitChar(n)] else Decimal(n / 10) + [DigitChar(n % 10)]
  }

  function Lower(c: char): char {
    if 'A' <= c <= 'Z' then c + ('a' - 'A') else c
  }

  /** The value of a digit in strconv; 36 stands for no digit at all. */
  function DigitOf(c: char): nat {
    if '0' <= c <= '9' then c as nat - '0' as nat
    else if 'a' <= Lower(c) <= 'z' then Lower(c) as nat - 'a' as nat + 10
    else 36
  }

  /** The digits of `s` in `base`; underscores are skipped. */
  function ValueOf(s: string, base: nat): Option<nat>
    requires 2 <= base <= 36
  {
    if s == "" then Some(0)
    else
      var init, c := ValueOf(s[..|s| - 1], base), s[|s| - 1];
      if init.None? then None
      else if c == '_' then init
      else if DigitOf(c) >= base then None
      else Some(init.value * base + DigitOf(c))
  }

  lemma {:induction false} ValueOfDecimal(n: nat)
    ensures ValueOf(Decimal(n), 10) == Some(n)
  {
    var s := Decimal(n);
    if n < 10 {
      assert s[..0] == "";
    } else {
      ValueOfDecimal(n / 10);
      assert s[..|s| - 1] == Decimal(n / 10);
    }
  }

  const TWO_63: nat := 0x8000_0000_0000_0000
  const TWO_64: nat := 0x1_0000_0000_0000_0000

  /** Where an underscore may stand: between digits, or after a base prefix. */
  function LastKind(s: string, hex: bool, start: char): char {
    if s == "" then start
    else
      var before, c := LastKind(s[..|s| - 1], hex, start), s[|s| - 1];
      if before == '?' then '?'
      else if IsDigit(c) || (hex && 'a' <= Lower(c) <= 'f') then '0'
      else if c == '_' then (if before == '0' then '_' else '?')
      else if before == '_' then '?'
      else '!'
  }

  predicate UnderscoresOk(s: string) {
    var unsigned := if s != "" && (s[0] == '-' || s[0] == '+') then s[1..] else s;
    var prefixed := |unsigned| >= 2 && unsigned[0] == '0' && Lower(unsigned[1]) in {'b', 'o', 'x'};
    var last := if prefixed then LastKind(unsigned[2..], Lower(unsigned[1]) == 'x', '0')
      else LastKind(unsigned, false, '^');
    last != '_' && last != '?'
  }

  /** strconv.ParseUint with base 0 and 64 bits: the base comes from the prefix. */
  function ParseUint0(s: string): Option<nat> {
    if s == "" then None
    else
      var prefix := if |s| >= 3 && s[0] == '0' then Lower(s[1]) else ' ';
      var v :=
        if s[0] != '0' then ValueOf(s, 10)
        else if prefix == 'b' then ValueOf(s[2..], 2)
        else if prefix == 'o' then ValueOf(s[2..], 8)
        else if prefix == 'x' then ValueOf(s[2..], 16)
        else ValueOf(s[1..], 8);
      if v.None? || v.value >= TWO_64 || ('_' in s && !UnderscoresOk(s)) then None else v
  }

  /** strconv.ParseInt(s, 0, 64). */
  function ParseInt0(s: string): Option<int> {
    if s == "" then None
    else
      var negative := s[0] == '-';
      var v := ParseUint0(if negative || s[0] == '+' then s[1..] else s);
      if v.None? then None
      else if !negative && v.value >= TWO_63 then None
      else if negative && v.value > TWO_63 then None
      else if negative then Some(0 - v.value)
      else Some(v.value)
  }

  /** The prefix says the base, and every further digit counts in it. */
  lemma PrefixDecidesBase(prefix: string, base: nat, s: string, v: nat, c: char, d: nat)
    requires (prefix, base) in {("0x", 16), ("0o", 8), ("0b", 2)} && '_' !in s
    requires if s == "" then v == 0 else ParseInt0(prefix + s) == Some(v)
    requires d < base && base * v + d < TWO_63
    requires || ('0' <= c <= '9' && d == c as nat - '0' as nat)
             || ('a' <= c <= 'f' && d == c as nat - 'a' as nat + 10)
             || ('A' <= c <= 'F' && d == c as nat - 'A' as nat + 10)
    ensures ParseInt0(prefix + (s + [c])) == Some(base * v + d)
  {
    assert ValueOf(s, base) == Some(v) by {
      if s != "" { AfterPrefix(prefix, base, s); }
    }
    ValueOfLonger(s, v, c, d, base);
    AfterPrefix(prefix, base, s + [c]);
  }

  lemma ValueOfLonger(s: string, v: nat, c: char, d: nat, base: nat)
    requires 2 <= base <= 36 && ValueOf(s, base) == Some(v) && c != '_' && DigitOf(c) == d < base
    ensures ValueOf(s + [c], base) == Some(base * v + d)
  {
    assert (s + [c])[..|s|] == s;
  }

  lemma AfterPrefix(prefix: string, base: nat, s: string)
    requires (prefix, base) in {("0x", 16), ("0o", 8), ("0b", 2)} && s != "" && '_' !in s
    ensures var v := ValueOf(s, base);
      ParseInt0(prefix + s) == if v.None? || v.value >= TWO_63 then None else Some(v.value)
  {
    var p := prefix + s;
    assert p[2..] == s && p[0] == '0' && p[1] == prefix[1] && '_' !in p;
  }

  /** Negative numbers, and where the range ends. */
  lemma SignedDecimals(n: nat)
    requires n < TWO_64
    ensures ParseInt0("-" + Decimal(n)) == if n <= TWO_63 then Some(0 - n) else None
    ensures ParseInt0("+" + Decimal(n)) == ParseInt0(Decimal(n)) == if n < TWO_63 then Some(n) else None
  {
    var s := Decimal(n);
    UnsignedDecimal(n);
    assert s[0] in s && ("-" + s)[1..] == s && ("+" + s)[1..] == s;
  }

  lemma UnsignedDecimal(n: nat)
    requires n < TWO_64
    ensures ParseUint0(Decimal(n)) == Some(n)
  {
    var s := Decimal(n);
    assert s[0] in s;
    ValueOfDecimal(n);
    if s[0] == '0' {
      assert s == "0" && s[1..] == "" && s[..0] == "";
      assert ValueOf(s, 10) == Some(0);
    }
    assert !IsDigit('_') && '_' !in s;
  }

  lemma ParseIntOfDecimal(n: nat)
    requires n < TWO_63
    ensures ParseInt0(Decimal(n)) == Some(n)
  {
    SignedDecimals(n);
  }
}
