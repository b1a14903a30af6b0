/** The JSON text both sides hash: Go's encoding/json.Marshal and the browser's goJSONMarshal,
    with a parser that undoes either. The two printers differ in one respect only: Go 1.22 and
    later write U+0008 and U+000C as \b and \f, the browser as \u0008 and \u000c. */
module GoJson {
  import opened Wrappers

  datatype Json =
    | Null
    | Bool(b: bool)
    | Num(n: int)
    | Str(s: string)
    | Arr(items: seq<Json>)
    | Obj(members: seq<Member>)

  datatype Member = Member(key: string, value: Json)

  datatype Printer = GoEncoder | Browser

  // ---- strings ----

  function HexDigit(d: int): char
    requires 0 <= d < 16
  {
    if d < 10 then '0' + d as char else 'a' + (d - 10) as char
  }

  function UnicodeEscape(code: int): string
    requires 0 <= code < 0x10000
  {
    ['\\', 'u', HexDigit(code / 0x1000), HexDigit(code / 0x100 % 0x10),
     HexDigit(code / 0x10 % 0x10), HexDigit(code % 0x10)]
  }

  predicate NeedsUnicodeEscape(c: char) {
    (c as int) < 0x20 || c == '<' || c == '>' || c == '&' || c as int == 0x2028 || c as int == 0x2029
  }

  /** U+0008 and U+000C: the characters the two printers write differently. */
  predicate ShortInGoOnly(c: char) {
    c as int == 0x08 || c as int == 0x0C
  }

  function EscapeChar(c: char, p: Printer): (r: string)
    ensures r != ""
  {
    if c == '"' then ['\\', '"']
    else if c == '\\' then ['\\', '\\']
    else if c == '\n' then ['\\', 'n']
    else if c == '\r' then ['\\', 'r']
    else if c == '\t' then ['\\', 't']
    else if p == GoEncoder && c as int == 0x08 then ['\\', 'b']
    else if p == GoEncoder && c as int == 0x0C then ['\\', 'f']
    else if NeedsUnicodeEscape(c) then UnicodeEscape(c as int)
    else [c]
  }

  function Escape(s: string, p: Printer): string {
    if s == "" then "" else EscapeChar(s[0], p) + Escape(s[1..], p)
  }

  function Quote(s: string, p: Printer): string {
    ['"'] + Escape(s, p) + ['"']
  }

  lemma Associative(a: string, b: string, c: string)
    ensures (a + b) + c == a + (b + c)
  {
  }

  lemma {:induction false} EscapeSnoc(s: string, c: char, p: Printer)
    ensures Escape(s + [c], p) == Escape(s, p) + EscapeChar(c, p)
  {
    if s == "" {
      assert s + [c] == [c] && [c][1..] == "";
    } else {
      EscapeSnoc(s[1..], c, p);
      assert (s + [c])[1..] == s[1..] + [c] && (s + [c])[0] == s[0];
      Associative(EscapeChar(s[0], p), Escape(s[1..], p), EscapeChar(c, p));
    }
  }

  /** What the loop has written after i characters. */
  function Written(s: string, i: nat): string
    requires i <= |s|
  {
    ['"'] + Escape(s[..i], Browser)
  }

  lemma WrittenNext(s: string, i: nat)
    requires i < |s|
    ensures Written(s, i + 1) == Written(s, i) + EscapeChar(s[i], Browser)
  {
    EscapeSnoc(s[..i], s[i], Browser);
    assert s[..i + 1] == s[..i] + [s[i]];
    Associative(['"'], Escape(s[..i], Browser), EscapeChar(s[i], Browser));
  }

  /** goJSONString: one pass, appending to out. */
  method GoJSONString(s: string) returns (out: string)
    ensures out == Quote(s, Browser)
  {
    out := ['"'];
    for i := 0 to |s|
      invariant out == Written(s, i)
    {
      WrittenNext(s, i);
      var ch := s[i];
      if ch == '"' || ch == '\\' {
        out := out + ['\\', ch];
      } else if ch == '\n' {
        out := out + ['\\', 'n'];
      } else if ch == '\r' {
        out := out + ['\\', 'r'];
      } else if ch == '\t' {
        out := out + ['\\', 't'];
      } else if NeedsUnicodeEscape(ch) {
        out := out + UnicodeEscape(ch as int);
      } else {
        out := out + [ch];
      }
    }
    assert s[..|s|] == s;
    out := out + ['"'];
  }

  // ---- numbers ----

  predicate IsDigit(c: char) { '0' <= c <= '9' }

  function Digits(n: nat): (r: string)
    ensures r != "" && forall i | 0 <= i < |r| :: IsDigit(r[i])
  {
    if n < 10 then ['0' + n as char] else Digits(n / 10) + ['0' + (n % 10) as char]
  }

  function Decimal(n: int): string {
    if n < 0 then "-" + Digits(-n) else Digits(n)
  }

  // ---- values ----

  /** goJSONMarshal for p == Browser, json.Marshal for p == GoEncoder. */
  function Print(v: Json, p: Printer): string
    decreases v, 0
  {
    match v
    case Null => "null"
    case Bool(b) => if b then "true" else "false"
    case Num(n) => Decimal(n)
    case Str(s) => Quote(s, p)
    case Arr(items) => "[" + PrintItems(items, p) + "]"
    case Obj(members) => "{" + PrintMembers(members, p) + "}"
  }

  function PrintItems(items: seq<Json>, p: Printer): string
    decreases items, 1
  {
    if items == [] then ""
    else if |items| == 1 then Print(items[0], p)
    else Print(items[0], p) + "," + PrintItems(items[1..], p)
  }

  function PrintMember(m: Member, p: Printer): string
    decreases m, 1
  {
    Quote(m.key, p) + ":" + Print(m.value, p)
  }

  function PrintMembers(members: seq<Member>, p: Printer): string
    decreases members, 2
  {
    if members == [] then ""
    else if |members| == 1 then PrintMember(members[0], p)
    else PrintMember(members[0], p) + "," + PrintMembers(members[1..], p)
  }

  // ---- parser ----

  function HexValue(c: char): (r: int)
    ensures -1 <= r < 16
  {
    if '0' <= c <= '9' then c as int - '0' as int
    else if 'a' <= c <= 'f' then c as int - 'a' as int + 10
    else -1
  }

  /** The code of the four hex digits at the head of s, or -1. */
  function HexCode(s: string): (r: int)
    ensures -1 <= r < 0x10000
  {
    if |s| < 4 then -1
    else
      var a, b, c, d := HexValue(s[0]), HexValue(s[1]), HexValue(s[2]), HexValue(s[3]);
      if a < 0 || b < 0 || c < 0 || d < 0 then -1 else a * 0x1000 + b * 0x100 + c * 0x10 + d
  }

  /** One possibly escaped character and what follows it. */
  function ParseChar(s: string): (r: Option<(char, string)>)
    requires s != ""
    ensures r.Some? ==> |r.value.1| < |s|
  {
    if s[0] != '\\' then Some((s[0], s[1..]))
    else if |s| < 2 then None
    else if s[1] == '"' || s[1] == '\\' then Some((s[1], s[2..]))
    else if s[1] == 'n' then Some(('\n', s[2..]))
    else if s[1] == 'r' then Some(('\r', s[2..]))
    else if s[1] == 't' then Some(('\t', s[2..]))
    else if s[1] == 'b' then Some((0x08 as char, s[2..]))
    else if s[1] == 'f' then Some((0x0C as char, s[2..]))
    else if s[1] == 'u' && 0 <= HexCode(s[2..]) < 0xD800 then Some((HexCode(s[2..]) as char, s[6..]))
    else None
  }

  /** The characters up to the closing quote. */
  function ParseChars(s: string): (r: Option<(string, string)>)
    ensures r.Some? ==> |r.value.1| < |s|
    decreases |s|
  {
    if s == "" then None
    else if s[0] == '"' then Some(("", s[1..]))
    else
      match ParseChar(s)
      case None => None
      case Some((c, rest)) =>
        match ParseChars(rest)
        case None => None
        case Some((cs, k)) => Some(([c] + cs, k))
  }

  function ParseString(s: string): (r: Option<(string, string)>)
    ensures r.Some? ==> |r.value.1| < |s|
  {
    if s == "" || s[0] != '"' then None else ParseChars(s[1..])
  }

  function DigitRun(s: string): (n: nat)
    ensures n <= |s| && forall i | 0 <= i < n :: IsDigit(s[i])
  {
    if s == "" || !IsDigit(s[0]) then 0 else 1 + DigitRun(s[1..])
  }

  function DigitsValue(ds: string): int
    requires forall i | 0 <= i < |ds| :: IsDigit(ds[i])
  {
    if ds == "" then 0 else DigitsValue(ds[..|ds| - 1]) * 10 + (ds[|ds| - 1] as int - '0' as int)
  }

  function ParseNat(s: string): (r: Option<(int, string)>)
    ensures r.Some? ==> |r.value.1| < |s|
  {
    var n := DigitRun(s);
    if n == 0 then None else Some((DigitsValue(s[..n]), s[n..]))
  }

  function ParseValue(s: string): (r: Option<(Json, string)>)
    ensures r.Some? ==> |r.value.1| < |s|
    decreases |s|, 0
  {
    if s == "" then None
    else if s[0] == 'n' then
      if "null" <= s then Some((Null, s[4..])) else None
    else if s[0] == 't' then
      if "true" <= s then Some((Bool(true), s[4..])) else None
    else if s[0] == 'f' then
      if "false" <= s then Some((Bool(false), s[5..])) else None
    else if s[0] == '"' then
      match ParseString(s)
      case None => None
      case Some((cs, k)) => Some((Str(cs), k))
    else if s[0] == '[' then
      if "[]" <= s then Some((Arr([]), s[2..])) else
      match ParseItems(s[1..])
      case None => None
      case Some((items, k)) => Some((Arr(items), k))
    else if s[0] == '{' then
      if "{}" <= s then Some((Obj([]), s[2..])) else
      match ParseMembers(s[1..])
      case None => None
      case Some((members, k)) => Some((Obj(members), k))
    else if s[0] == '-' then
      match ParseNat(s[1..])
      case None => None
      case Some((n, k)) => Some((Num(-n), k))
    else
      match ParseNat(s)
      case None => None
      case Some((n, k)) => Some((Num(n), k))
  }

  /** One or more values up to the closing bracket. */
  function ParseItems(s: string): (r: Option<(seq<Json>, string)>)
    ensures r.Some? ==> |r.value.1| < |s|
    decreases |s|, 1
  {
    match ParseValue(s)
    case None => None
    case Some((v, k)) =>
      if k == "" then None
      else if k[0] == ']' then Some(([v], k[1..]))
      else if k[0] != ',' then None
      else
        match ParseItems(k[1..])
        case None => None
        case Some((vs, k')) => Some(([v] + vs, k'))
  }

  /** One or more members up to the closing brace. */
  function ParseMembers(s: string): (r: Option<(seq<Member>, string)>)
    ensures r.Some? ==> |r.value.1| < |s|
    decreases |s|, 1
  {
    match ParseString(s)
    case None => None
    case Some((key, k0)) =>
      if k0 == "" || k0[0] != ':' then None else
      match ParseValue(k0[1..])
      case None => None
      case Some((v, k)) =>
        if k == "" then None
        else if k[0] == '}' then Some(([Member(key, v)], k[1..]))
        else if k[0] != ',' then None
        else
          match ParseMembers(k[1..])
          case None => None
          case Some((ms, k')) => Some(([Member(key, v)] + ms, k'))
  }

  // ---- the parser undoes both printers ----

  lemma HexValueOf(d: int)
    requires 0 <= d < 16
    ensures HexValue(HexDigit(d)) == d
  {
  }

  lemma HexCodeOf(code: int, k: string)
    requires 0 <= code < 0x10000
    ensures HexCode(UnicodeEscape(code)[2..] + k) == code
  {
    var h := UnicodeEscape(code)[2..] + k;
    var a, b, c, d := code / 0x1000, code / 0x100 % 0x10, code / 0x10 % 0x10, code % 0x10;
    assert h[0] == HexDigit(a) && h[1] == HexDigit(b) && h[2] == HexDigit(c) && h[3] == HexDigit(d);
    HexValueOf(a); HexValueOf(b); HexValueOf(c); HexValueOf(d);
    HexDigitsOf(code);
  }

  lemma HexDigitsOf(code: int)
    requires 0 <= code < 0x10000
    ensures code == code / 0x1000 * 0x1000 + code / 0x100 % 0x10 * 0x100 + code / 0x10 % 0x10 * 0x10 + code % 0x10
  {
    var x := code / 0x10;
    var y := x / 0x10;
    assert code / 0x100 == y && code / 0x1000 == y / 0x10;
    assert code == x * 0x10 + code % 0x10 && x == y * 0x10 + x % 0x10 && y == y / 0x10 * 0x10 + y % 0x10;
  }

  lemma ParseEscapedChar(c: char, p: Printer, k: string)
    ensures EscapeChar(c, p)[0] != '"'
    ensures ParseChar(EscapeChar(c, p) + k) == Some((c, k))
  {
    var e := EscapeChar(c, p);
    var s := e + k;
    if |e| == 6 {
      HexCodeOf(c as int, k);
      assert s[2..] == UnicodeEscape(c as int)[2..] + k && s[6..] == k;
    } else if |e| == 2 {
      assert s[2..] == k;
    } else {
      assert s[1..] == k;
    }
  }

  lemma ParseFirstChar(e: string, c: char, tail: string, cs: string, k: string)
    requires e != "" && e[0] != '"' && ParseChar(e + tail) == Some((c, tail)) && ParseChars(tail) == Some((cs, k))
    ensures ParseChars(e + tail) == Some(([c] + cs, k))
  {
  }

  lemma {:induction false} ParseEscaped(s: string, p: Printer, k: string)
    ensures ParseChars(Escape(s, p) + ['"'] + k) == Some((s, k))
  {
    if s == "" {
      assert (Escape(s, p) + ['"'] + k)[1..] == k;
    } else {
      var e, tail := EscapeChar(s[0], p), Escape(s[1..], p) + ['"'] + k;
      Associative(e, Escape(s[1..], p), ['"']);
      Associative(e, Escape(s[1..], p) + ['"'], k);
      ParseEscapedChar(s[0], p, tail);
      ParseEscaped(s[1..], p, k);
      ParseFirstChar(e, s[0], tail, s[1..], k);
      assert [s[0]] + s[1..] == s;
    }
  }

  /** A parser recovers every string from its quoted form, whatever follows the closing quote. */
  lemma ParseQuoted(s: string, p: Printer, k: string)
    ensures ParseString(Quote(s, p) + k) == Some((s, k))
  {
    ParseEscaped(s, p, k);
    QuoteTail(Escape(s, p), k);
  }

  lemma QuoteTail(e: string, k: string)
    ensures (['"'] + e + ['"'] + k)[1..] == e + ['"'] + k
  {
  }

  lemma {:induction false} DigitRunOf(ds: string, k: string)
    requires forall i | 0 <= i < |ds| :: IsDigit(ds[i])
    requires k == "" || !IsDigit(k[0])
    ensures DigitRun(ds + k) == |ds|
  {
    if ds == "" {
      assert ds + k == k;
    } else {
      assert (ds + k)[1..] == ds[1..] + k;
      DigitRunOf(ds[1..], k);
    }
  }

  lemma {:induction false} DigitsValueOf(n: nat)
    ensures DigitsValue(Digits(n)) == n
  {
    if n >= 10 {
      DigitsValueOf(n / 10);
      assert Digits(n)[..|Digits(n)| - 1] == Digits(n / 10);
    } else {
      assert Digits(n)[..0] == "";
    }
  }

  /** DECIMAL: digits without leading zeros, a minus sign in front exactly of a negative number. */
  lemma {:induction false} DecimalForm(n: int)
    ensures n < 0 ==> Decimal(n) == "-" + Decimal(-n)
    ensures n >= 0 ==> (forall i | 0 <= i < |Decimal(n)| :: '0' <= Decimal(n)[i] <= '9') && DigitsValue(Decimal(n)) == n
    ensures n >= 0 && |Decimal(n)| > 1 ==> Decimal(n)[0] != '0'
  {
    if n >= 0 {
      DigitsValueOf(n);
      if n >= 10 { DecimalForm(n / 10); }
    }
  }

  lemma ParseDigits(n: nat, k: string)
    requires k == "" || !IsDigit(k[0])
    ensures ParseNat(Digits(n) + k) == Some((n, k))
  {
    DigitRunOf(Digits(n), k);
    DigitsValueOf(n);
    assert (Digits(n) + k)[..|Digits(n)|] == Digits(n) && (Digits(n) + k)[|Digits(n)|..] == k;
  }

  // What ParseValue does on each kind of head character.

  lemma ParseLiteral(word: string, k: string)
    requires word == "null" || word == "true" || word == "false"
    ensures ParseValue(word + k) == Some((if word == "null" then Null else Bool(word == "true"), k))
  {
    var s := word + k;
    assert s[0] == word[0] && s[..|word|] == word && s[|word|..] == k;
  }

  lemma ParseQuotedValue(body: string, cs: string, k: string)
    requires ParseString(['"'] + body) == Some((cs, k))
    ensures ParseValue(['"'] + body) == Some((Str(cs), k))
  {
  }

  lemma ParseArrBody(body: string, items: seq<Json>, k: string)
    requires body != "" && body[0] != ']' && ParseItems(body) == Some((items, k))
    ensures ParseValue(['['] + body) == Some((Arr(items), k))
  {
    assert (['['] + body)[1..] == body;
  }

  lemma ParseLastItem(s: string, v: Json, k: string)
    requires ParseValue(s) == Some((v, [']'] + k))
    ensures ParseItems(s) == Some(([v], k))
  {
    assert ([']'] + k)[1..] == k;
  }

  lemma ParseMoreItems(s: string, v: Json, rest: string, vs: seq<Json>, k: string)
    requires ParseValue(s) == Some((v, [','] + rest)) && ParseItems(rest) == Some((vs, k))
    ensures ParseItems(s) == Some(([v] + vs, k))
  {
    assert ([','] + rest)[1..] == rest;
  }

  /** s starts with the text of member m and continues with tail. */
  ghost predicate ParsesMember(s: string, m: Member, tail: string) {
    match ParseString(s)
    case None => false
    case Some((key, k0)) => key == m.key && k0 != "" && k0[0] == ':' && ParseValue(k0[1..]) == Some((m.value, tail))
  }

  lemma ParseLastMember(s: string, m: Member, k: string)
    requires ParsesMember(s, m, ['}'] + k)
    ensures ParseMembers(s) == Some(([m], k))
  {
    assert (['}'] + k)[1..] == k;
  }

  lemma ParseMoreMembers(s: string, m: Member, rest: string, ms: seq<Member>, k: string)
    requires ParsesMember(s, m, [','] + rest) && ParseMembers(rest) == Some((ms, k))
    ensures ParseMembers(s) == Some(([m] + ms, k))
  {
    assert ([','] + rest)[1..] == rest;
  }

  lemma ParseObjBody(body: string, members: seq<Member>, k: string)
    requires body != "" && body[0] != '}' && ParseMembers(body) == Some((members, k))
    ensures ParseValue(['{'] + body) == Some((Obj(members), k))
  {
    assert (['{'] + body)[1..] == body;
  }

  lemma ParseEmptyComposite(k: string)
    ensures ParseValue("[]" + k) == Some((Arr([]), k))
    ensures ParseValue("{}" + k) == Some((Obj([]), k))
  {
    assert ("[]" + k)[..2] == "[]" && ("[]" + k)[2..] == k;
    assert ("{}" + k)[..2] == "{}" && ("{}" + k)[2..] == k;
  }

  lemma ParseNegative(body: string, n: int, k: string)
    requires ParseNat(body) == Some((n, k))
    ensures ParseValue(['-'] + body) == Some((Num(-n), k))
  {
    assert (['-'] + body)[1..] == body;
  }

  lemma ParseNonNegative(s: string, n: nat, k: string)
    requires s != "" && IsDigit(s[0]) && ParseNat(s) == Some((n, k))
    ensures ParseValue(s) == Some((Num(n), k))
  {
  }

  lemma ParseDecimal(n: int, k: string)
    requires k == "" || !IsDigit(k[0])
    ensures ParseValue(Decimal(n) + k) == Some((Num(n), k))
  {
    if n < 0 { ParseBelowZero(n, k); } else { ParseNatural(n, k); }
  }

  lemma ParseNatural(n: int, k: string)
    requires n >= 0 && (k == "" || !IsDigit(k[0]))
    ensures ParseValue(Decimal(n) + k) == Some((Num(n), k))
  {
    ParseDigits(n, k);
    ParseNonNegative(Digits(n) + k, n, k);
  }

  lemma MinusSign(ds: string, k: string)
    ensures "-" + ds + k == ['-'] + (ds + k)
  {
  }

  lemma ParseBelowZero(n: int, k: string)
    requires n < 0 && (k == "" || !IsDigit(k[0]))
    ensures ParseValue(Decimal(n) + k) == Some((Num(n), k))
  {
    ParseDigits(-n, k);
    ParseNegative(Digits(-n) + k, -n, k);
    MinusSign(Digits(-n), k);
  }

  lemma Reassociate(a: string, b: string, c: string, d: string, k: string)
    ensures (a + b + c) + d + k == a + (b + (c + d + k))
  {
  }

  /** No printed value starts with a closing bracket, so "[]" and "[v" cannot be confused. */
  lemma PrintHead(v: Json, p: Printer)
    ensures Print(v, p) != "" && Print(v, p)[0] != ']'
  {
    if v.Num? { assert Digits(if v.n < 0 then -v.n else v.n) != ""; }
  }

  lemma {:induction false} DigitRunLonger(ds: string, k: string)
    requires forall i | 0 <= i < |ds| :: IsDigit(ds[i])
    requires k != "" && IsDigit(k[0])
    ensures DigitRun(ds + k) > |ds|
  {
    if ds == "" {
      assert ds + k == k;
    } else {
      assert (ds + k)[1..] == ds[1..] + k;
      DigitRunLonger(ds[1..], k);
    }
  }

  lemma ParseNatSwallows(n: nat, k: string)
    requires k != "" && IsDigit(k[0])
    ensures ParseNat(Digits(n) + k).Some? ==> |ParseNat(Digits(n) + k).value.1| < |k|
  {
    DigitRunLonger(Digits(n), k);
  }

  predicate Swallows(text: string, k: string) { ParseNat(text).Some? ==> |ParseNat(text).value.1| < |k| }

  lemma MinusSwallows(text: string, m: int, k: string)
    requires Swallows(text, k)
    ensures ParseValue(['-'] + text) != Some((Num(m), k))
  {
    assert (['-'] + text)[1..] == text;
  }

  lemma DigitsSwallow(text: string, m: int, k: string)
    requires Swallows(text, k) && text != "" && IsDigit(text[0])
    ensures ParseValue(text) != Some((Num(m), k))
  {
  }

  /** A number swallows the digits that follow it. */
  lemma NumberSwallows(n: int, k: string)
    requires k != "" && IsDigit(k[0])
    ensures ParseValue(Decimal(n) + k) != Some((Num(n), k))
  {
    if n < 0 {
      MinusSign(Digits(-n), k);
      ParseNatSwallows(-n, k);
      MinusSwallows(Digits(-n) + k, n, k);
    } else {
      ParseNatSwallows(n, k);
      DigitsSwallow(Digits(n) + k, n, k);
    }
  }

  /** No number with a digit after it. */
  predicate Ends(v: Json, k: string) { !(v.Num? && k != "" && IsDigit(k[0])) }

  /** ROUND TRIP: parsing the text either printer gives for v, with anything after it, yields v and leaves
      the rest, unless v is a number and the rest goes on with a digit. */
  lemma {:induction false} ParsePrint(v: Json, p: Printer, k: string)
    ensures ParseValue(Print(v, p) + k) == Some((v, k)) <==> Ends(v, k)
    decreases v, 0
  {
    match v {
      case Null => ParseLiteral("null", k);
      case Bool(b) => ParseLiteral(if b then "true" else "false", k);
      case Num(n) => if Ends(v, k) { ParseDecimal(n, k); } else { NumberSwallows(n, k); }
      case Str(cs) => ParsePrintStr(cs, p, k);
      case Arr(items) => ParsePrintArr(items, p, k);
      case Obj(members) => ParsePrintObj(members, p, k);
    }
  }

  lemma ParsePrintStr(cs: string, p: Printer, k: string)
    ensures ParseValue(Quote(cs, p) + k) == Some((Str(cs), k))
  {
    ParseQuoted(cs, p, k);
    var body := Escape(cs, p) + ['"'] + k;
    assert Quote(cs, p) + k == ['"'] + body;
    ParseQuotedValue(body, cs, k);
  }

  lemma {:induction false} ParsePrintArr(items: seq<Json>, p: Printer, k: string)
    ensures ParseValue("[" + PrintItems(items, p) + "]" + k) == Some((Arr(items), k))
    decreases items, 2
  {
    if items == [] {
      assert "[" + PrintItems(items, p) + "]" == "[]";
      ParseEmptyComposite(k);
    } else {
      ParsePrintItems(items, p, k);
      PrintHead(items[0], p);
      var body := PrintItems(items, p) + "]" + k;
      assert body[0] == Print(items[0], p)[0];
      assert "[" + PrintItems(items, p) + "]" + k == ['['] + body;
      ParseArrBody(body, items, k);
    }
  }

  lemma {:induction false} ParsePrintObj(members: seq<Member>, p: Printer, k: string)
    ensures ParseValue("{" + PrintMembers(members, p) + "}" + k) == Some((Obj(members), k))
    decreases members, 3
  {
    if members == [] {
      assert "{" + PrintMembers(members, p) + "}" == "{}";
      ParseEmptyComposite(k);
    } else {
      ParsePrintMembers(members, p, k);
      var body := PrintMembers(members, p) + "}" + k;
      assert body[0] == PrintMember(members[0], p)[0] == '"';
      assert "{" + PrintMembers(members, p) + "}" + k == ['{'] + body;
      ParseObjBody(body, members, k);
    }
  }

  lemma {:induction false} ParsePrintItems(items: seq<Json>, p: Printer, k: string)
    requires items != []
    ensures ParseItems(PrintItems(items, p) + "]" + k) == Some((items, k))
    decreases items, 1
  {
    if |items| == 1 {
      var tail := [']'] + k;
      ParsePrint(items[0], p, tail);
      ParseLastItem(Print(items[0], p) + tail, items[0], k);
      assert PrintItems(items, p) + "]" + k == Print(items[0], p) + tail;
      assert items == [items[0]];
    } else {
      var rest := PrintItems(items[1..], p) + "]" + k;
      ParsePrint(items[0], p, [','] + rest);
      ParsePrintItems(items[1..], p, k);
      ParseFirstOfItems(items, p, k, rest);
    }
  }

  lemma ParseFirstOfItems(items: seq<Json>, p: Printer, k: string, rest: string)
    requires |items| > 1 && rest == PrintItems(items[1..], p) + "]" + k
    requires ParseValue(Print(items[0], p) + ([','] + rest)) == Some((items[0], [','] + rest))
    requires ParseItems(rest) == Some((items[1..], k))
    ensures ParseItems(PrintItems(items, p) + "]" + k) == Some((items, k))
  {
    ParseMoreItems(Print(items[0], p) + ([','] + rest), items[0], rest, items[1..], k);
    Reassociate(Print(items[0], p), ",", PrintItems(items[1..], p), "]", k);
    assert items == [items[0]] + items[1..];
  }

  lemma {:induction false} ParsePrintMembers(members: seq<Member>, p: Printer, k: string)
    requires members != []
    ensures ParseMembers(PrintMembers(members, p) + "}" + k) == Some((members, k))
    decreases members, 1
  {
    var m := members[0];
    if |members| == 1 {
      ParsePrintMember(m, p, ['}'] + k);
      OnlyMember(members, p, k);
    } else {
      var rest := PrintMembers(members[1..], p) + "}" + k;
      ParsePrintMember(m, p, [','] + rest);
      ParsePrintMembers(members[1..], p, k);
      FirstMember(members, p, rest, k);
    }
  }

  lemma CloseText(text: string, k: string)
    ensures text + "}" + k == text + (['}'] + k)
  {
  }

  lemma OnlyMember(members: seq<Member>, p: Printer, k: string)
    requires |members| == 1 && ParsesMember(PrintMember(members[0], p) + (['}'] + k), members[0], ['}'] + k)
    ensures ParseMembers(PrintMembers(members, p) + "}" + k) == Some((members, k))
  {
    var m := members[0];
    ParseLastMember(PrintMember(m, p) + (['}'] + k), m, k);
    CloseText(PrintMember(m, p), k);
    assert PrintMembers(members, p) == PrintMember(m, p);
    assert members == [m];
  }

  lemma FirstMember(members: seq<Member>, p: Printer, rest: string, k: string)
    requires |members| > 1 && rest == PrintMembers(members[1..], p) + "}" + k
    requires ParsesMember(PrintMember(members[0], p) + ([','] + rest), members[0], [','] + rest)
    requires ParseMembers(rest) == Some((members[1..], k))
    ensures ParseMembers(PrintMembers(members, p) + "}" + k) == Some((members, k))
  {
    var m := members[0];
    ParseMoreMembers(PrintMember(m, p) + ([','] + rest), m, rest, members[1..], k);
    Reassociate(PrintMember(m, p), ",", PrintMembers(members[1..], p), "}", k);
    assert members == [m] + members[1..];
  }

  /** The key and the value of one printed member are recovered, up to the text after it. */
  lemma {:induction false} ParsePrintMember(m: Member, p: Printer, tail: string)
    requires tail != "" && !IsDigit(tail[0])
    ensures ParsesMember(PrintMember(m, p) + tail, m, tail)
    decreases m, 1
  {
    var afterKey := ":" + (Print(m.value, p) + tail);
    assert PrintMember(m, p) + tail == Quote(m.key, p) + afterKey;
    ParseQuoted(m.key, p, afterKey);
    assert afterKey[1..] == Print(m.value, p) + tail;
    ParsePrint(m.value, p, tail);
  }

  /** UNAMBIGUOUS: equal texts come from equal values, even across the two printers. */
  lemma PrintInjective(v: Json, p: Printer, w: Json, q: Printer)
    requires Print(v, p) == Print(w, q)
    ensures v == w
  {
    ParsePrint(v, p, "");
    ParsePrint(w, q, "");
    assert Print(v, p) + "" == Print(w, q) + "";
  }

  // ---- where the printers agree ----

  predicate CleanString(s: string) {
    forall i | 0 <= i < |s| :: !ShortInGoOnly(s[i])
  }

  /** No string and no key inside v contains U+0008 or U+000C. */
  predicate Clean(v: Json) {
    match v
    case Str(s) => CleanString(s)
    case Arr(items) => forall w | w in items :: Clean(w)
    case Obj(members) => forall m | m in members :: CleanString(m.key) && Clean(m.value)
    case _ => true
  }

  lemma {:induction false} EscapeLengths(s: string)
    ensures |Escape(s, GoEncoder)| <= |Escape(s, Browser)|
    ensures CleanString(s) ==> Escape(s, GoEncoder) == Escape(s, Browser)
    ensures !CleanString(s) ==> |Escape(s, GoEncoder)| < |Escape(s, Browser)|
  {
    if s != "" {
      EscapeLengths(s[1..]);
      assert CleanString(s) <==> !ShortInGoOnly(s[0]) && CleanString(s[1..]);
    }
  }

  lemma {:induction false} PrintLengths(v: Json)
    ensures |Print(v, GoEncoder)| <= |Print(v, Browser)|
    ensures Clean(v) ==> Print(v, GoEncoder) == Print(v, Browser)
    ensures !Clean(v) ==> |Print(v, GoEncoder)| < |Print(v, Browser)|
    decreases v, 0
  {
    match v {
      case Str(s) => EscapeLengths(s);
      case Arr(items) => PrintItemsLengths(items);
      case Obj(members) => PrintMembersLengths(members);
      case _ =>
    }
  }

  lemma {:induction false} PrintItemsLengths(items: seq<Json>)
    ensures |PrintItems(items, GoEncoder)| <= |PrintItems(items, Browser)|
    ensures (forall w | w in items :: Clean(w)) ==> PrintItems(items, GoEncoder) == PrintItems(items, Browser)
    ensures !(forall w | w in items :: Clean(w)) ==> |PrintItems(items, GoEncoder)| < |PrintItems(items, Browser)|
    decreases items, 1
  {
    if items != [] {
      PrintLengths(items[0]);
      if |items| > 1 {
        PrintItemsLengths(items[1..]);
      }
      assert (forall w | w in items :: Clean(w)) <==> Clean(items[0]) && (forall w | w in items[1..] :: Clean(w)) by {
        assert items == [items[0]] + items[1..];
      }
    }
  }

  predicate CleanMember(m: Member) {
    CleanString(m.key) && Clean(m.value)
  }

  lemma {:induction false} PrintMembersLengths(members: seq<Member>)
    ensures |PrintMembers(members, GoEncoder)| <= |PrintMembers(members, Browser)|
    ensures (forall m | m in members :: CleanMember(m)) ==> PrintMembers(members, GoEncoder) == PrintMembers(members, Browser)
    ensures !(forall m | m in members :: CleanMember(m)) ==> |PrintMembers(members, GoEncoder)| < |PrintMembers(members, Browser)|
    decreases members, 1
  {
    if members != [] {
      var m := members[0];
      EscapeLengths(m.key);
      PrintLengths(m.value);
      if |members| > 1 {
        PrintMembersLengths(members[1..]);
      }
      assert (forall m | m in members :: CleanMember(m)) <==> CleanMember(m) && (forall m | m in members[1..] :: CleanMember(m)) by {
        assert members == [m] + members[1..];
      }
    }
  }

  /** EXACT: on one value the two printers agree if and only if it holds no U+0008 and no U+000C. */
  lemma PrintersAgree(v: Json)
    ensures Print(v, GoEncoder) == Print(v, Browser) <==> Clean(v)
  {
    PrintLengths(v);
  }
}
