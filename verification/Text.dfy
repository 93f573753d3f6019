/** Strings and small result types shared by every component: decimal printing, the reading of
    integers that Python's int() performs, line splitting and joining, and blank text. */
module Text {

  datatype Option<+T> = None | Some(value: T) {
    function GetOr(default: T): T {
      match this
      case Some(v) => v
      case None => default
    }
  }

  datatype Result<+T, +E> = Ok(value: T) | Err(error: E)

  // ---------- whitespace ----------

  /** The characters str.strip removes. */
  predicate IsSpace(c: char) {
    var u := c as int;
    9 <= u <= 13 || 28 <= u <= 32 || u == 0x85 || u == 0xA0 || u == 0x1680 ||
    0x2000 <= u <= 0x200A || u == 0x2028 || u == 0x2029 || u == 0x202F || u == 0x205F || u == 0x3000
  }

  lemma SpacesAre(c: char)
    ensures IsSpace(c) <==>
            c as int in {0x09, 0x0A, 0x0B, 0x0C, 0x0D, 0x1C, 0x1D, 0x1E, 0x1F, 0x20, 0x85, 0xA0, 0x1680, 0x2000, 0x2001,
                         0x2002, 0x2003, 0x2004, 0x2005, 0x2006, 0x2007, 0x2008, 0x2009, 0x200A, 0x2028, 0x2029, 0x202F,
                         0x205F, 0x3000}
  {
  }

  predicate IsBlank(s: string) {
    forall i | 0 <= i < |s| :: IsSpace(s[i])
  }

  function StripLeft(s: string): string {
    if s != "" && IsSpace(s[0]) then StripLeft(s[1..]) else s
  }

  function StripRight(s: string): string {
    if s != "" && IsSpace(s[|s| - 1]) then StripRight(s[..|s| - 1]) else s
  }

  function Strip(s: string): string {
    StripRight(StripLeft(s))
  }

  // ---------- decimal numbers ----------

  predicate IsDigit(c: char) { '0' <= c <= '9' }

  function DigitChar(d: nat): (c: char)
    requires d < 10
    ensures IsDigit(c) && DigitValue(c) == d
  {
    "0123456789"[d]
  }

  function DigitValue(c: char): nat
    requires IsDigit(c)
  {
    c as int - '0' as int
  }

  predicate AllDigits(s: string) {
    forall i | 0 <= i < |s| :: IsDigit(s[i])
  }

  /** str(n) of a non-negative integer. */
  function Decimal(n: nat): (s: string)
    ensures s != "" && AllDigits(s)
  {
    if n < 10 then [DigitChar(n)] else Decimal(n / 10) + [DigitChar(n % 10)]
  }

  function DigitsValue(s: string): nat
    requires AllDigits(s)
  {
    if s == "" then 0 else 10 * DigitsValue(s[..|s| - 1]) + DigitValue(s[|s| - 1])
  }

  lemma {:induction false} DecimalValue(n: nat)
    ensures DigitsValue(Decimal(n)) == n
  {
    if n >= 10 {
      DecimalValue(n / 10);
      assert Decimal(n)[..|Decimal(n)| - 1] == Decimal(n / 10);
    }
  }

  lemma DecimalInjective(m: nat, n: nat)
    requires Decimal(m) == Decimal(n)
    ensures m == n
  {
    DecimalValue(m);
    DecimalValue(n);
  }

  /** The digits of an integer literal in which single underscores may separate digits. */
  function UnscoredDigits(s: string): (r: Option<string>)
    ensures r.Some? ==> r.value != "" && AllDigits(r.value)
  {
    if s == "" || !IsDigit(s[0]) then None
    else if |s| == 1 then Some(s)
    else
      match UnscoredDigits(if s[1] == '_' then s[2..] else s[1..])
      case None => None
      case Some(rest) => Some([s[0]] + rest)
  }

  /** int(s) for text over ASCII digits: surrounding blanks, one sign, underscores between digits. */
  function ParseInt(s: string): Option<int> {
    var body := Strip(s);
    var signed := body != "" && (body[0] == '-' || body[0] == '+');
    match UnscoredDigits(if signed then body[1..] else body)
    case None => None
    case Some(digits) =>
      var magnitude: int := DigitsValue(digits);
      Some(if signed && body[0] == '-' then -magnitude else magnitude)
  }

  lemma {:induction false} UnscoredDigitsOfDigits(s: string)
    requires s != "" && AllDigits(s)
    ensures UnscoredDigits(s) == Some(s)
  {
    if |s| > 1 {
      UnscoredDigitsOfDigits(s[1..]);
      assert [s[0]] + s[1..] == s;
    }
  }

  /** Reading back a printed number gives the number. */
  lemma ParseIntOfDecimal(n: nat)
    ensures ParseInt(Decimal(n)) == Some(n)
  {
    var s := Decimal(n);
    assert IsDigit(s[0]) && IsDigit(s[|s| - 1]);
    assert Strip(s) == s;
    UnscoredDigitsOfDigits(s);
    DecimalValue(n);
  }

  /** Digits, with single underscores between them. */
  ghost predicate IsScored(s: string) {
    && s != "" && IsDigit(s[0]) && IsDigit(s[|s| - 1])
    && (forall i | 0 <= i < |s| :: IsDigit(s[i]) || s[i] == '_')
    && forall i, j | 0 <= i < j < |s| && j == i + 1 :: s[i] != '_' || s[j] != '_'
  }

  function DigitsIn(s: string): (digits: string)
    ensures AllDigits(digits)
  {
    if s == "" then "" else (if IsDigit(s[0]) then [s[0]] else "") + DigitsIn(s[1..])
  }

  lemma ScoredNext(s: string)
    requires |s| > 1 && IsDigit(s[0]) && s[1] != '_'
    ensures IsScored(s) <==> IsScored(s[1..])
  {
    var rest := s[1..];
    assert rest[|rest| - 1] == s[|s| - 1] && rest[0] == s[1];
    assert forall i | 1 <= i < |s| :: s[i] == rest[i - 1];
    if IsScored(rest) {
      forall i, j | 0 <= i < j < |s| && j == i + 1 ensures s[i] != '_' || s[j] != '_' {
        assert i > 0 ==> rest[i - 1] == s[i] && rest[j - 1] == s[j];
      }
    }
  }

  lemma ScoredSkip(s: string)
    requires |s| > 2 && IsDigit(s[0]) && s[1] == '_'
    ensures IsScored(s) <==> IsScored(s[2..])
  {
    var rest := s[2..];
    assert rest[|rest| - 1] == s[|s| - 1] && rest[0] == s[2];
    assert forall i | 2 <= i < |s| :: s[i] == rest[i - 2];
    if IsScored(rest) {
      forall i, j | 0 <= i < j < |s| && j == i + 1 ensures s[i] != '_' || s[j] != '_' {
        assert i > 1 ==> rest[i - 2] == s[i] && rest[j - 2] == s[j];
      }
    }
  }

  lemma {:induction false} UnscoredDigitsAre(s: string)
    ensures UnscoredDigits(s) == if IsScored(s) then Some(DigitsIn(s)) else None
    decreases |s|
  {
    if |s| == 1 {
      assert s[1..] == "" && s == [s[0]];
      assert [s[0]] + "" == s;
    } else if |s| > 1 && IsDigit(s[0]) && s[1] == '_' {
      assert s[1..][1..] == s[2..];
      assert DigitsIn(s[1..]) == DigitsIn(s[2..]);
      UnscoredDigitsAre(s[2..]);
      if |s| > 2 {
        ScoredSkip(s);
      }
    } else if |s| > 1 && IsDigit(s[0]) {
      UnscoredDigitsAre(s[1..]);
      ScoredNext(s);
    }
  }

  lemma {:induction false} StripLeftOf(left: string, s: string)
    requires IsBlank(left)
    ensures StripLeft(left + s) == StripLeft(s)
    decreases |left|
  {
    if left == "" {
      assert left + s == s;
    } else {
      assert (left + s)[1..] == left[1..] + s;
      StripLeftOf(left[1..], s);
    }
  }

  lemma {:induction false} StripRightOf(s: string, right: string)
    requires IsBlank(right)
    ensures StripRight(s + right) == StripRight(s)
    decreases |right|
  {
    if right == "" {
      assert s + right == s;
    } else {
      assert (s + right)[..|s + right| - 1] == s + right[..|right| - 1];
      StripRightOf(s, right[..|right| - 1]);
    }
  }

  lemma StripIs(left: string, body: string, right: string)
    requires IsBlank(left) && IsBlank(right) && body != "" && !IsSpace(body[0]) && !IsSpace(body[|body| - 1])
    ensures Strip(left + (body + right)) == body
  {
    StripLeftOf(left, body + right);
    StripRightOf(body, right);
  }

  lemma SignedIs(sign: string, text: string, s: string)
    requires Strip(s) == sign + text && sign in {"", "+", "-"} && text != ""
    requires sign == "" ==> text[0] != '+' && text[0] != '-'
    ensures ParseInt(s) == match UnscoredDigits(text)
                           case None => None
                           case Some(digits) =>
                             var magnitude: int := DigitsValue(digits);
                             Some(if sign == "-" then -magnitude else magnitude)
  {
    var body := Strip(s);
    if sign == "" {
      assert body == text;
    } else {
      assert body[0] == sign[0] && body[1..] == text;
    }
  }

  /** An integer is a sign, if there is one, and its digits. */
  predicate IsRead(sign: string, text: string, n: Option<int>) {
    var magnitude: int := DigitsValue(DigitsIn(text));
    n == if sign == "-" then Some(-magnitude) else Some(magnitude)
  }

  lemma ParseStripped(s: string, sign: string, text: string)
    requires Strip(s) == sign + text && sign in {"", "+", "-"} && text != ""
    requires sign == "" ==> text[0] != '+' && text[0] != '-'
    ensures if IsScored(text) then IsRead(sign, text, ParseInt(s)) else ParseInt(s).None?
  {
    UnscoredDigitsAre(text);
    SignedIs(sign, text, s);
  }

  /** It is read between blanks, and any other text is no number. */
  lemma ParseIntIs(s: string, left: string, sign: string, text: string, right: string)
    requires s == left + ((sign + text) + right) && IsBlank(left) && IsBlank(right)
    requires sign in {"", "+", "-"} && text != "" && !IsSpace(text[|text| - 1])
    requires sign == "" ==> !IsSpace(text[0]) && text[0] != '+' && text[0] != '-'
    ensures if IsScored(text) then IsRead(sign, text, ParseInt(s)) else ParseInt(s).None?
  {
    var body := sign + text;
    assert body[|body| - 1] == text[|text| - 1];
    StripIs(left, body, right);
    ParseStripped(s, sign, text);
  }

  // ---------- joining and splitting on newline ----------

  function JoinLines(lines: seq<string>): string {
    if lines == [] then ""
    else if |lines| == 1 then lines[0]
    else lines[0] + "\n" + JoinLines(lines[1..])
  }

  /** text.split("\n"): never empty. */
  function SplitNewline(text: string): (lines: seq<string>)
    ensures lines != []
    ensures forall l | l in lines :: '\n' !in l
  {
    if text == "" then [""]
    else
      var rest := SplitNewline(text[1..]);
      if text[0] == '\n' then [""] + rest else [[text[0]] + rest[0]] + rest[1..]
  }

  lemma {:induction false} JoinOfSplit(text: string)
    ensures JoinLines(SplitNewline(text)) == text
  {
    if text != "" {
      JoinOfSplit(text[1..]);
      var rest := SplitNewline(text[1..]);
      if text[0] == '\n' {
        assert ([""] + rest)[1..] == rest;
      } else if |rest| > 1 {
        assert ([[text[0]] + rest[0]] + rest[1..])[1..] == rest[1..];
      }
    }
  }
}
