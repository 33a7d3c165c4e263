// Text as the Go standard library cuts it: decimal numerals, trimming, fields and lines.
module Text {
  import opened Wrappers

  // ----- numerals

  function Digit(d: nat): (c: char)
    requires d < 10
    ensures IsDigit(c) && DigitValue(c) == d
  {
    '0' + d as char
  }

  predicate IsDigit(c: char) {
    '0' <= c <= '9'
  }

  function DigitValue(c: char): (d: nat)
    requires IsDigit(c)
    ensures d < 10
  {
    c as int - '0' as int
  }

  predicate AllDigits(s: string) {
    forall i :: 0 <= i < |s| ==> IsDigit(s[i])
  }

  function Digits(n: nat): (s: string)
    ensures s != "" && AllDigits(s)
  {
    if n < 10 then [Digit(n)] else Digits(n / 10) + [Digit(n % 10)]
  }

  // fmt.Sprintf("%d", n)
  function Decimal(n: int): string {
    if n < 0 then "-" + Digits(-n) else Digits(n)
  }

  function Value(s: string): nat
    requires AllDigits(s)
  {
    if s == "" then 0 else Value(s[..|s| - 1]) * 10 + DigitValue(s[|s| - 1])
  }

  lemma {:induction false} ValueOfDigits(n: nat)
    ensures Value(Digits(n)) == n
  {
    if n >= 10 {
      ValueOfDigits(n / 10);
      assert Digits(n)[..|Digits(n)| - 1] == Digits(n / 10);
    } else {
      assert Digits(n)[..0] == "" && Value("") == 0;
    }
  }

  const INT_MAX: int := 0x7FFF_FFFF_FFFF_FFFF

  predicate IsInt64(n: int) {
    -INT_MAX - 1 <= n <= INT_MAX
  }

  // strconv.Atoi with 64-bit int.
  function Atoi(s: string): Option<int> {
    var signed := s != "" && (s[0] == '-' || s[0] == '+');
    var d := if signed then s[1..] else s;
    if d == "" || !AllDigits(d) then None
    else
      var n: int := Value(d);
      var v := if s[0] == '-' then -n else n;
      if IsInt64(v) then Some(v) else None
  }

  lemma {:induction false} AtoiOfDecimal(n: int)
    requires IsInt64(n)
    ensures Atoi(Decimal(n)) == Some(n)
  {
    var d := Digits(if n < 0 then -n else n);
    ValueOfDigits(if n < 0 then -n else n);
    if n < 0 {
      assert Decimal(n)[1..] == d;
    } else {
      assert IsDigit(d[0]);
    }
  }

  // ----- white space

  // unicode.IsSpace
  predicate IsSpace(c: char) {
    || c == ' ' || c == '\t' || c == '\n' || c == '\U{0B}' || c == '\U{0C}' || c == '\r'
    || c == '\U{85}' || c == '\U{A0}' || c == '\U{1680}' || '\U{2000}' <= c <= '\U{200A}'
    || c == '\U{2028}' || c == '\U{2029}' || c == '\U{202F}' || c == '\U{205F}' || c == '\U{3000}'
  }

  predicate NoSpace(s: string) {
    forall i :: 0 <= i < |s| ==> !IsSpace(s[i])
  }

  // strings.TrimSpace
  function TrimSpace(s: string): (r: string)
    ensures r != "" ==> !IsSpace(r[0]) && !IsSpace(r[|r| - 1])
  {
    if s == "" then ""
    else if IsSpace(s[0]) then TrimSpace(s[1..])
    else if IsSpace(s[|s| - 1]) then TrimSpace(s[..|s| - 1])
    else s
  }

  // strings.Fields, with `cur` the field being read.
  function FieldsFrom(cur: string, s: string): seq<string>
    decreases |s|
  {
    var closed := if cur == "" then [] else [cur];
    if s == "" then closed
    else if IsSpace(s[0]) then closed + FieldsFrom("", s[1..])
    else FieldsFrom(cur + [s[0]], s[1..])
  }

  function Fields(s: string): seq<string> {
    FieldsFrom("", s)
  }

  predicate IsWord(s: string) {
    s != "" && NoSpace(s)
  }

  lemma {:induction false} FieldsAreWords(cur: string, s: string)
    requires NoSpace(cur)
    ensures forall i :: 0 <= i < |FieldsFrom(cur, s)| ==> IsWord(FieldsFrom(cur, s)[i])
    decreases |s|
  {
    if s != "" {
      if IsSpace(s[0]) {
        FieldsAreWords("", s[1..]);
      } else {
        FieldsAreWords(cur + [s[0]], s[1..]);
      }
    }
  }

  lemma {:induction false} FirstFieldStarts(cur: string, s: string)
    requires cur != ""
    ensures FieldsFrom(cur, s) != [] && FieldsFrom(cur, s)[0] != "" && FieldsFrom(cur, s)[0][0] == cur[0]
    decreases |s|
  {
    if s != "" && !IsSpace(s[0]) {
      FirstFieldStarts(cur + [s[0]], s[1..]);
    }
  }

  lemma {:induction false} FieldsWord(cur: string, w: string, rest: string)
    requires NoSpace(w) && cur + w != "" && (rest == "" || rest[0] == ' ')
    ensures FieldsFrom(cur, w + rest) == [cur + w] + (if rest == "" then [] else Fields(rest[1..]))
    decreases |w|
  {
    if w == "" {
      assert w + rest == rest && cur + w == cur;
    } else {
      assert (w + rest)[1..] == w[1..] + rest && (w + rest)[0] == w[0];
      FieldsWord(cur + [w[0]], w[1..], rest);
      assert cur + [w[0]] + w[1..] == cur + w;
    }
  }

  lemma {:induction false} FieldsThen(w: string, more: string)
    requires IsWord(w)
    ensures Fields(w + (" " + more)) == [w] + Fields(more)
    ensures Fields(w) == [w]
  {
    assert (" " + more)[1..] == more && "" + w == w && w + "" == w;
    FieldsWord("", w, " " + more);
    FieldsWord("", w, "");
  }

  lemma {:induction false} FieldsOfThree(a: string, b: string, c: string)
    requires IsWord(a) && IsWord(b) && IsWord(c)
    ensures Fields(a + " " + b + " " + c) == [a, b, c]
  {
    var bc := b + (" " + c);
    FieldsThen(c, "");
    FieldsThen(b, c);
    FieldsThen(a, bc);
    assert a + " " + b + " " + c == a + (" " + bc);
  }

  // ----- lines

  // strings.Split(s, "\n")
  function SplitLines(s: string): (r: seq<string>)
    ensures r != []
  {
    if s == "" then [""]
    else
      var r := SplitLines(s[1..]);
      if s[0] == '\n' then [""] + r else [[s[0]] + r[0]] + r[1..]
  }

  lemma {:induction false} SplitFirstLine(a: string, b: string)
    requires forall i :: 0 <= i < |a| ==> a[i] != '\n'
    ensures SplitLines(a + "\n" + b) == [a] + SplitLines(b)
  {
    var s := a + "\n" + b;
    if a == "" {
      assert s[1..] == b;
    } else {
      SplitFirstLine(a[1..], b);
      assert s[1..] == a[1..] + "\n" + b;
      assert [a[0]] + a[1..] == a;
    }
  }
}
