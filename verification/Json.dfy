/** Compact, key-sorted JSON text (RFC 8259, sections 2 to 7): a printer, a full recursive-descent parser with
    a depth limit, and the proof that parsing what was printed gives the value back. */
module Json {
  import opened Effects
  import Order

  const U64_MAX: nat := 0xFFFF_FFFF_FFFF_FFFF

  /** A number is a 64-bit natural or kept as its text. */
  datatype Value =
    | Null
    | Bool(b: bool)
    | Natural(n: nat)
    | OtherNumber(text: string)
    | Text(s: string)
    | List(items: seq<Value>)
    | Object(fields: map<string, Value>)

  // ---------- printing ----------

  predicate IsDigit(c: char) { '0' <= c <= '9' }

  function DigitOf(n: nat): (c: char)
    requires n < 10
    ensures IsDigit(c)
  {
    "0123456789"[n]
  }

  function Digits(n: nat): (d: string)
    ensures d != "" && forall c :: c in d ==> IsDigit(c)
    ensures n > 0 ==> d[0] != '0'
    ensures n == 0 ==> d == "0"
  {
    if n < 10 then [DigitOf(n)] else Digits(n / 10) + [DigitOf(n % 10)]
  }

  function HexOf(n: nat): char
    requires n < 16
  {
    "0123456789abcdef"[n]
  }

  /** How a character is written inside a string. */
  function Escape(c: char): (e: string)
    ensures e != "" && e[0] != '"' && e[0] >= ' '
  {
    if c == '"' then "\\\"" else if c == '\\' then "\\\\"
    else if c >= ' ' then [c]
    else if c as int == 8 then "\\b" else if c as int == 9 then "\\t" else if c as int == 10 then "\\n"
    else if c as int == 12 then "\\f" else if c as int == 13 then "\\r"
    else "\\u00" + [HexOf(c as int / 16), HexOf(c as int % 16)]
  }

  function Escaped(s: string): string { if s == "" then "" else Escape(s[0]) + Escaped(s[1..]) }

  function Quote(s: string): string { "\"" + Escaped(s) + "\"" }

  function Unwrap(paths: seq<Order.Path>): (q: seq<string>)
    requires forall i :: 0 <= i < |paths| ==> |paths[i]| == 1
    ensures |q| == |paths| && forall i :: 0 <= i < |q| ==> paths[i] == [q[i]]
  {
    seq(|paths|, i requires 0 <= i < |paths| => paths[i][0])
  }

  function Wrap(ks: set<string>): set<Order.Path> { set k | k in ks :: [k] }

  lemma Wrapped(ks: set<string>)
    ensures forall i :: 0 <= i < |Order.Sorted(Wrap(ks))| ==> |Order.Sorted(Wrap(ks))[i]| == 1 && Order.Sorted(Wrap(ks))[i][0] in ks
    ensures forall k :: k in ks ==> exists i :: 0 <= i < |Order.Sorted(Wrap(ks))| && Order.Sorted(Wrap(ks))[i] == [k]
  {
    var paths := Order.Sorted(Wrap(ks));
    forall i | 0 <= i < |paths| ensures |paths[i]| == 1 && paths[i][0] in ks {
      assert paths[i] in paths;
    }
    forall k | k in ks ensures exists i :: 0 <= i < |paths| && paths[i] == [k] {
      assert [k] in Wrap(ks);
      assert [k] in paths;
    }
  }

  lemma Ordered(paths: seq<Order.Path>, q: seq<string>, i: nat, j: nat)
    requires |q| == |paths| && (forall k :: 0 <= k < |q| ==> paths[k] == [q[k]]) && Order.Ascending(paths) && i < j < |q|
    ensures Order.TextLess(q[i], q[j]) && q[i] != q[j]
  {
    hide Order.TextLess;
    assert Order.Less([q[i]], [q[j]]);
    var x: Order.Path, y: Order.Path := [q[i]], [q[j]];
    assert x[0] == q[i] && y[0] == q[j] && x[1..] == [] && y[1..] == [];
    assert !Order.Less(x[1..], y[1..]);
    Order.TextTotal(q[i], q[j]);
  }

  /** The keys in ascending order. */
  function Keys(ks: set<string>): (q: seq<string>)
    ensures forall k :: k in q <==> k in ks
    ensures forall i, j :: 0 <= i < j < |q| ==> Order.TextLess(q[i], q[j]) && q[i] != q[j]
  {
    hide Order.Sorted, Order.Less, Order.TextLess, Order.Ascending;
    Wrapped(ks);
    var paths := Order.Sorted(Wrap(ks));
    var q := Unwrap(paths);
    assert forall i, j :: 0 <= i < j < |q| ==> Order.TextLess(q[i], q[j]) && q[i] != q[j] by {
      forall i, j | 0 <= i < j < |q| ensures Order.TextLess(q[i], q[j]) && q[i] != q[j] { Ordered(paths, q, i, j); }
    }
    assert forall k :: k in ks ==> k in q by {
      forall k | k in ks ensures k in q {
        var i :| 0 <= i < |paths| && paths[i] == [k];
        assert q[i] == k;
      }
    }
    q
  }

  function Print(v: Value): string
    decreases v
  {
    match v
    case Null => "null"
    case Bool(b) => if b then "true" else "false"
    case Natural(n) => Digits(n)
    case OtherNumber(text) => text
    case Text(s) => Quote(s)
    case List(items) => "[" + PrintItems(items)
    case Object(fields) => "{" + PrintFields(v, Keys(fields.Keys))
  }

  /** The items and the closing bracket. */
  function PrintItems(items: seq<Value>): string {
    if items == [] then "]"
    else if |items| == 1 then Print(items[0]) + "]"
    else Print(items[0]) + "," + PrintItems(items[1..])
  }

  function PrintFields(v: Value, keys: seq<string>): string
    requires v.Object? && forall k :: k in keys ==> k in v.fields
    decreases v, |keys|
  {
    if keys == [] then "}"
    else Quote(keys[0]) + ":" + Print(v.fields[keys[0]]) + if |keys| == 1 then "}" else "," + PrintFields(v, keys[1..])
  }

  // ---------- parsing ----------

  predicate White(c: char) { c == ' ' || c == '\t' || c == '\n' || c == '\r' }

  function SkipWhite(s: string): (t: string)
    ensures |t| <= |s|
  {
    if s != "" && White(s[0]) then SkipWhite(s[1..]) else s
  }

  function LeadingDigits(s: string): (n: nat)
    ensures n <= |s| && forall i :: 0 <= i < n ==> IsDigit(s[i])
    ensures n < |s| ==> !IsDigit(s[n])
  {
    if s != "" && IsDigit(s[0]) then 1 + LeadingDigits(s[1..]) else 0
  }

  function ValueOf(digits: string): nat
    requires forall c :: c in digits ==> IsDigit(c)
  {
    if digits == "" then 0
    else
      var last := digits[|digits| - 1];
      assert last in digits && IsDigit(last);
      var ones: nat := last as int - '0' as int;
      ValueOf(digits[..|digits| - 1]) * 10 + ones
  }

  /** Length of a fraction, 0 if there is none; none at all when its digits are missing. */
  function Fraction(s: string): (r: Option<nat>)
    ensures r.Some? ==> r.value <= |s|
  {
    if s == "" || s[0] != '.' then Some(0)
    else if LeadingDigits(s[1..]) == 0 then None
    else Some(1 + LeadingDigits(s[1..]))
  }

  function Exponent(s: string): (r: Option<nat>)
    ensures r.Some? ==> r.value <= |s|
  {
    if s == "" || (s[0] != 'e' && s[0] != 'E') then Some(0)
    else
      var sign := if |s| > 1 && (s[1] == '+' || s[1] == '-') then 2 else 1;
      if LeadingDigits(s[sign..]) == 0 then None else Some(sign + LeadingDigits(s[sign..]))
  }

  /** A number of section 6 of RFC 8259. */
  function ParseNumber(s: string): (r: Option<(Value, string)>)
    ensures r.Some? ==> |r.value.1| < |s|
  {
    var sign := if s != "" && s[0] == '-' then 1 else 0;
    var n := LeadingDigits(s[sign..]);
    if n == 0 || (n > 1 && s[sign] == '0') then None
    else
      var fraction := Fraction(s[sign + n..]);
      if fraction.None? then None
      else
        var exponent := Exponent(s[sign + n + fraction.value..]);
        if exponent.None? then None
        else
          var end := sign + n + fraction.value + exponent.value;
          assert forall c :: c in s[sign..][..n] ==> IsDigit(c);
          if end == n && ValueOf(s[..n]) <= U64_MAX then Some((Natural(ValueOf(s[..n])), s[n..]))
          else Some((OtherNumber(s[..end]), s[end..]))
  }

  function HexValue(c: char): Option<nat> {
    if IsDigit(c) then Some(c as int - '0' as int)
    else if 'a' <= c <= 'f' then Some(c as int - 'a' as int + 10)
    else if 'A' <= c <= 'F' then Some(c as int - 'A' as int + 10)
    else None
  }

  /** Two hexadecimal digits. */
  function Hex2(a: char, b: char): (r: Option<nat>)
    ensures r.Some? ==> r.value < 0x100
  {
    var x, y := HexValue(a), HexValue(b);
    if x.None? || y.None? then None else Some(x.value * 16 + y.value)
  }

  /** Four hexadecimal digits. */
  function Hex4(s: string): (r: Option<nat>)
    ensures r.Some? ==> |s| >= 4 && r.value < 0x10000
  {
    if |s| < 4 then None
    else
      var high, low := Hex2(s[0], s[1]), Hex2(s[2], s[3]);
      if high.None? || low.None? then None else Some(high.value * 256 + low.value)
  }

  /** After `\u`: one unit, or two that form a pair. The character and how many characters were read. */
  function ParseUnit(s: string): (r: Option<(char, nat)>)
    ensures r.Some? ==> r.value.1 <= |s|
  {
    var first := Hex4(s);
    if first.None? then None
    else if first.value < 0xD800 || first.value >= 0xE000 then Some((first.value as char, 4))
    else if first.value >= 0xDC00 || |s| < 6 || s[4] != '\\' || s[5] != 'u' then None
    else
      var second := Hex4(s[6..]);
      if second.None? || second.value < 0xDC00 || second.value >= 0xE000 then None
      else Some(((0x10000 + (first.value - 0xD800) * 0x400 + (second.value - 0xDC00)) as char, 10))
  }

  /** What follows a backslash. */
  function ParseEscape(s: string): (r: Option<(char, nat)>)
    ensures r.Some? ==> r.value.1 <= |s|
  {
    if s == "" then None
    else if s[0] == '"' || s[0] == '\\' || s[0] == '/' then Some((s[0], 1))
    else if s[0] == 'b' then Some((8 as char, 1)) else if s[0] == 't' then Some((9 as char, 1))
    else if s[0] == 'n' then Some((10 as char, 1)) else if s[0] == 'f' then Some((12 as char, 1))
    else if s[0] == 'r' then Some((13 as char, 1))
    else if s[0] != 'u' then None
    else
      var unit := ParseUnit(s[1..]);
      if unit.None? then None else Some((unit.value.0, unit.value.1 + 1))
  }

  /** The rest of a string after its opening quote. */
  function ParseString(s: string): (r: Option<(string, string)>)
    ensures r.Some? ==> |r.value.1| < |s|
  {
    if s == "" || s[0] < ' ' then None
    else if s[0] == '"' then Some(("", s[1..]))
    else
      var one := if s[0] == '\\' then ParseEscape(s[1..]) else Some((s[0], 0));
      if one.None? then None
      else
        var rest := ParseString(s[1 + one.value.1..]);
        if rest.None? then None else Some(([one.value.0] + rest.value.0, rest.value.1))
  }

  predicate Starts(s: string, p: string) { |p| <= |s| && s[..|p|] == p }

  function ParseWord(s: string): (r: Option<(Value, string)>)
    ensures r.Some? ==> |r.value.1| < |s|
  {
    if Starts(s, "null") then Some((Null, s[4..]))
    else if Starts(s, "true") then Some((Bool(true), s[4..]))
    else if Starts(s, "false") then Some((Bool(false), s[5..]))
    else None
  }

  /** One value; `depth` is what remains of the nesting limit. */
  function ParseValue(s: string, depth: nat): (r: Option<(Value, string)>)
    ensures r.Some? ==> |r.value.1| < |s|
    decreases |s|, 1
  {
    var t := SkipWhite(s);
    if t == "" then None
    else if t[0] == '"' then
      var x := ParseString(t[1..]);
      if x.None? then None else Some((Text(x.value.0), x.value.1))
    else if t[0] == '[' then if depth <= 1 then None else ParseItems(t[1..], depth - 1, [])
    else if t[0] == '{' then if depth <= 1 then None else ParseFields(t[1..], depth - 1, map[], true)
    else if t[0] == '-' || IsDigit(t[0]) then ParseNumber(t)
    else ParseWord(t)
  }

  /** The items after an opening bracket or a comma. */
  function ParseItems(s: string, depth: nat, done: seq<Value>): (r: Option<(Value, string)>)
    ensures r.Some? ==> |r.value.1| < |s|
    decreases |s|, 2
  {
    var t := SkipWhite(s);
    if done == [] && t != "" && t[0] == ']' then Some((List([]), t[1..]))
    else
      var v := ParseValue(s, depth);
      if v.None? then None
      else
        var u := SkipWhite(v.value.1);
        if u == "" then None
        else if u[0] == ',' then ParseItems(u[1..], depth, done + [v.value.0])
        else if u[0] == ']' then Some((List(done + [v.value.0]), u[1..]))
        else None
  }

  /** The members after an opening brace or a comma; a repeated key replaces the earlier value. */
  function ParseFields(s: string, depth: nat, done: map<string, Value>, first: bool): (r: Option<(Value, string)>)
    ensures r.Some? ==> |r.value.1| < |s|
    decreases |s|, 2
  {
    var t := SkipWhite(s);
    if first && t != "" && t[0] == '}' then Some((Object(done), t[1..]))
    else if t == "" || t[0] != '"' then None
    else
      var k := ParseString(t[1..]);
      if k.None? then None
      else
        var colon := SkipWhite(k.value.1);
        if colon == "" || colon[0] != ':' then None
        else
          var v := ParseValue(colon[1..], depth);
          if v.None? then None
          else
            var u := SkipWhite(v.value.1);
            var fields := done[k.value.0 := v.value.0];
            if u == "" then None
            else if u[0] == ',' then ParseFields(u[1..], depth, fields, false)
            else if u[0] == '}' then Some((Object(fields), u[1..]))
            else None
  }

  const DEPTH_LIMIT: nat := 128

  /** A whole text: one value and nothing but white space after it. */
  function Parse(s: string): Option<Value> {
    var r := ParseValue(s, DEPTH_LIMIT);
    if r.None? || SkipWhite(r.value.1) != "" then None else Some(r.value.0)
  }

  // ---------- round trip ----------

  /** What the printer writes canonically: every number a 64-bit natural, nested within `depth`. */
  predicate Printable(v: Value, depth: nat)
    decreases v
  {
    match v
    case Natural(n) => n <= U64_MAX
    case OtherNumber(_) => false
    case List(items) => depth > 1 && forall i | 0 <= i < |items| :: Printable(items[i], depth - 1)
    case Object(fields) => depth > 1 && forall k | k in fields :: Printable(fields[k], depth - 1)
    case _ => true
  }

  /** The text after a value does not continue a number. */
  predicate Stops(r: string) { r == "" || (!IsDigit(r[0]) && r[0] != '.' && r[0] != 'e' && r[0] != 'E') }

  lemma {:induction false} CountDigits(d: string, r: string)
    requires (forall c :: c in d ==> IsDigit(c)) && (r == "" || !IsDigit(r[0]))
    ensures LeadingDigits(d + r) == |d|
  {
    if d == "" {
      assert d + r == r;
    } else {
      assert d[0] in d && (d + r)[1..] == d[1..] + r;
      assert forall c :: c in d[1..] ==> c in d;
      CountDigits(d[1..], r);
    }
  }

  lemma {:induction false} ValueOfDigits(n: nat)
    ensures ValueOf(Digits(n)) == n
    decreases n
  {
    if n >= 10 {
      ValueOfDigits(n / 10);
      var d := Digits(n);
      assert d[..|d| - 1] == Digits(n / 10) && d[|d| - 1] == DigitOf(n % 10);
    } else {
      var d := Digits(n);
      assert d[..|d| - 1] == "";
    }
  }

  lemma NumberRoundTrip(n: nat, r: string)
    requires n <= U64_MAX && Stops(r)
    ensures ParseNumber(Digits(n) + r) == Some((Natural(n), r))
    ensures White(Digits(n)[0]) == false && IsDigit(Digits(n)[0])
  {
    var d := Digits(n);
    var s := d + r;
    CountDigits(d, r);
    assert d[0] in d && s[0] == d[0] && s[0..] == s;
    assert s[|d|..] == r && s[..|d|] == d;
    ValueOfDigits(n);
    assert |d| > 1 ==> d[0] != '0';
  }

  lemma HexRoundTrip(n: nat)
    requires n < 16
    ensures HexValue(HexOf(n)) == Some(n)
  {
  }

  /** Reading an escape gives its character back. */
  lemma EscapeRoundTrip(c: char, r: string)
    ensures var e := Escape(c);
            if e[0] == '\\' then ParseEscape(e[1..] + r) == Some((c, |e| - 1)) else e == [c] && c != '"' && c >= ' '
  {
    if c < ' ' && c as int !in {8, 9, 10, 12, 13} {
      var n := c as int;
      HexRoundTrip(n / 16);
      HexRoundTrip(n % 16);
      HexRoundTrip(0);
      var e := Escape(c);
      var s := e[1..] + r;
      assert s[1..][..4] == "00" + [HexOf(n / 16), HexOf(n % 16)];
      assert s[1] == '0' && s[2] == '0' && s[3] == HexOf(n / 16) && s[4] == HexOf(n % 16);
      assert Hex4(s[1..]) == Some(n);
    }
  }

  lemma StepChar(c: char, more: string, x: string, r: string)
    requires ParseString(more) == Some((x, r))
    ensures ParseString(Escape(c) + more) == Some(([c] + x, r))
  {
    EscapeRoundTrip(c, more);
    hide Escape, ParseEscape;
    var e := Escape(c);
    var s := e + more;
    assert s[0] == e[0] && s[|e|..] == more;
    if e[0] == '\\' { assert s[1..] == e[1..] + more; }
  }

  lemma {:induction false} StringRoundTrip(x: string, r: string)
    ensures ParseString(Escaped(x) + "\"" + r) == Some((x, r))
  {
    hide *;
    EscapedStep(x);
    if x == "" {
      EndOfString(r);
      assert "" + "\"" + r == "\"" + r;
    } else {
      StringRoundTrip(x[1..], r);
      StepChar(x[0], Escaped(x[1..]) + "\"" + r, x[1..], r);
      Gathered(Escape(x[0]), Escaped(x[1..]), "\"", r);
      assert x == [x[0]] + x[1..];
    }
  }

  lemma EscapedStep(x: string)
    ensures x == "" ==> Escaped(x) == ""
    ensures x != "" ==> Escaped(x) == Escape(x[0]) + Escaped(x[1..])
  {
    hide Escape;
  }

  lemma EndOfString(r: string)
    ensures ParseString("\"" + r) == Some(("", r))
  {
    assert ("\"" + r)[1..] == r;
  }

  lemma Gathered(a: string, b: string, c: string, d: string)
    ensures a + b + c + d == a + (b + c + d)
  {
  }

  /** The first character of a printed value: no white space, and no bracket that closes a list. */
  lemma PrintStarts(v: Value, depth: nat)
    requires Printable(v, depth)
    ensures Print(v) != "" && !White(Print(v)[0]) && Print(v)[0] != ']'
  {
    if v.Natural? { NumberRoundTrip(v.n, ""); }
  }

  // One parser step each.

  lemma StepText(s: string, depth: nat, x: string, rest: string)
    requires s != "" && s[0] == '"' && ParseString(s[1..]) == Some((x, rest))
    ensures ParseValue(s, depth) == Some((Text(x), rest))
  {
    hide ParseString, ParseItems, ParseFields, ParseNumber, ParseWord;
  }

  lemma StepNumber(s: string, depth: nat)
    requires s != "" && IsDigit(s[0])
    ensures ParseValue(s, depth) == ParseNumber(s)
  {
    hide ParseString, ParseItems, ParseFields, ParseNumber, ParseWord;
  }

  lemma StepWord(s: string, depth: nat)
    requires s != "" && s[0] in ['n', 't', 'f']
    ensures ParseValue(s, depth) == ParseWord(s)
  {
    hide ParseString, ParseItems, ParseFields, ParseNumber, ParseWord;
  }

  lemma StepOpen(s: string, depth: nat)
    requires s != "" && depth > 1
    ensures s[0] == '[' ==> ParseValue(s, depth) == ParseItems(s[1..], depth - 1, [])
    ensures s[0] == '{' ==> ParseValue(s, depth) == ParseFields(s[1..], depth - 1, map[], true)
  {
    hide ParseString, ParseItems, ParseFields, ParseNumber, ParseWord;
  }

  lemma StepItem(s: string, depth: nat, done: seq<Value>, v: Value, more: string)
    requires s != "" && !White(s[0]) && s[0] != ']' && ParseValue(s, depth) == Some((v, more)) && more != ""
    ensures more[0] == ',' ==> ParseItems(s, depth, done) == ParseItems(more[1..], depth, done + [v])
    ensures more[0] == ']' ==> ParseItems(s, depth, done) == Some((List(done + [v]), more[1..]))
  {
    hide ParseValue;
    var t := SkipWhite(s);
    assert t == s;
  }

  lemma StepField(s: string, depth: nat, done: map<string, Value>, first: bool, k: string, colon: string, v: Value, more: string)
    requires s != "" && s[0] == '"' && ParseString(s[1..]) == Some((k, colon)) && colon != "" && colon[0] == ':'
    requires ParseValue(colon[1..], depth) == Some((v, more)) && more != ""
    ensures more[0] == ',' ==> ParseFields(s, depth, done, first) == ParseFields(more[1..], depth, done[k := v], false)
    ensures more[0] == '}' ==> ParseFields(s, depth, done, first) == Some((Object(done[k := v]), more[1..]))
  {
    hide ParseValue, ParseString;
    assert SkipWhite(s) == s && SkipWhite(colon) == colon;
  }

  lemma ScalarRoundTrip(v: Value, r: string, depth: nat)
    requires Printable(v, depth) && Stops(r) && !v.List? && !v.Object?
    ensures ParseValue(Print(v) + r, depth) == Some((v, r))
  {
    hide ParseValue, ParseString, ParseNumber, Escaped, Digits, Stops;
    var s := Print(v) + r;
    match v
    case Null =>
      assert s[..4] == "null" && s[4..] == r;
      StepWord(s, depth);
    case Bool(b) =>
      if b { assert s[..4] == "true" && s[4..] == r; } else { assert s[..5] == "false" && s[5..] == r && s[..4] == "fals"; }
      StepWord(s, depth);
    case Natural(n) =>
      NumberRoundTrip(n, r);
      StepNumber(s, depth);
    case Text(x) =>
      StringRoundTrip(x, r);
      assert s[1..] == Escaped(x) + "\"" + r;
      StepText(s, depth, x, r);
  }

  /** A printed value read before any text that does not continue it. */
  lemma {:induction false} ValueRoundTrip(v: Value, r: string, depth: nat)
    requires Printable(v, depth) && Stops(r)
    ensures ParseValue(Print(v) + r, depth) == Some((v, r))
    decreases v, 2
  {
    hide ParseValue, ParseItems, ParseFields, PrintItems, PrintFields, Stops;
    var s := Print(v) + r;
    if v.List? {
      assert s[1..] == PrintItems(v.items) + r;
      StepOpen(s, depth);
      if v.items == [] { EmptyList(r, depth - 1); } else {
        assert v.items[0..] == v.items && v.items[..0] == [];
        ListRoundTrip(v, 0, r, depth - 1);
      }
    } else if v.Object? {
      var keys := Keys(v.fields.Keys);
      assert s[1..] == PrintFields(v, keys) + r;
      StepOpen(s, depth);
      if keys == [] { EmptyObject(v, r, depth - 1); } else {
        assert keys[0..] == keys && keys[..0] == [] && Earlier(v, []) == map[];
        ObjectRoundTrip(v, keys, 0, r, depth - 1);
      }
    } else {
      ScalarRoundTrip(v, r, depth);
    }
  }

  lemma EmptyList(r: string, depth: nat)
    ensures ParseItems(PrintItems([]) + r, depth, []) == Some((List([]), r))
  {
    hide ParseValue;
    var s := "]" + r;
    assert s[1..] == r && SkipWhite(s) == s;
  }

  lemma EmptyObject(v: Value, r: string, depth: nat)
    requires v.Object? && Keys(v.fields.Keys) == []
    ensures ParseFields(PrintFields(v, []) + r, depth, map[], true) == Some((v, r))
  {
    hide ParseValue;
    var s := "}" + r;
    assert s[1..] == r && SkipWhite(s) == s;
    assert v.fields.Keys == {} by {
      if k :| k in v.fields.Keys { assert k in Keys(v.fields.Keys); }
    }
    assert v.fields == map[];
  }

  lemma PrintItemsStep(items: seq<Value>, i: nat, r: string)
    requires i < |items|
    ensures PrintItems(items[i..]) + r
            == Print(items[i]) + if i + 1 == |items| then "]" + r else "," + (PrintItems(items[i + 1..]) + r)
  {
    hide Print;
    assert items[i..][0] == items[i] && items[i..][1..] == items[i + 1..];
  }

  lemma {:induction false} ListRoundTrip(v: Value, i: nat, r: string, depth: nat)
    requires v.List? && i < |v.items|
    requires forall j :: 0 <= j < |v.items| ==> Printable(v.items[j], depth)
    ensures ParseItems(PrintItems(v.items[i..]) + r, depth, v.items[..i]) == Some((v, r))
    decreases v, 1, |v.items| - i
  {
    hide *;
    var items := v.items;
    var item, last := items[i], i + 1 == |items|;
    var more := if last then "]" + r else "," + (PrintItems(items[i + 1..]) + r);
    PrintItemsStep(items, i, r);
    PrintStarts(item, depth);
    var s := Print(item) + more;
    assert s[0] == Print(item)[0];
    Punctuation(more);
    ValueRoundTrip(item, more, depth);
    StepItem(s, depth, items[..i], item, more);
    assert items[..i + 1] == items[..i] + [item];
    if last {
      assert more[1..] == r && items[..i + 1] == items;
    } else {
      assert more[1..] == PrintItems(items[i + 1..]) + r;
      ListRoundTrip(v, i + 1, r, depth);
    }
  }

  lemma Punctuation(more: string)
    ensures more != "" && more[0] in [',', ']', '}'] ==> Stops(more)
  {
  }

  /** The members with the given keys. */
  function Earlier(v: Value, keys: seq<string>): map<string, Value>
    requires v.Object?
  {
    map k | k in keys && k in v.fields :: v.fields[k]
  }

  lemma PrintFieldsStep(v: Value, keys: seq<string>, i: nat, r: string)
    requires v.Object? && (forall k :: k in keys ==> k in v.fields) && i < |keys|
    ensures keys[i] in v.fields
    ensures var tail := Print(v.fields[keys[i]]) + if i + 1 == |keys| then "}" + r else "," + (PrintFields(v, keys[i + 1..]) + r);
            PrintFields(v, keys[i..]) + r == "\"" + (Escaped(keys[i]) + "\"" + (":" + tail))
  {
    hide Print, Escaped;
    assert keys[i] in keys;
    assert keys[i..][0] == keys[i] && keys[i..][1..] == keys[i + 1..];
  }

  lemma EarlierNext(v: Value, keys: seq<string>, i: nat)
    requires v.Object? && i < |keys| && keys[i] in v.fields
    ensures Earlier(v, keys[..i + 1]) == Earlier(v, keys[..i])[keys[i] := v.fields[keys[i]]]
  {
    assert keys[..i + 1] == keys[..i] + [keys[i]];
  }

  lemma {:induction false} ObjectRoundTrip(v: Value, keys: seq<string>, i: nat, r: string, depth: nat)
    requires v.Object? && keys == Keys(v.fields.Keys) && i < |keys|
    requires forall k :: k in v.fields ==> Printable(v.fields[k], depth)
    ensures ParseFields(PrintFields(v, keys[i..]) + r, depth, Earlier(v, keys[..i]), i == 0) == Some((v, r))
    decreases v, 1, |keys| - i
  {
    hide *;
    PrintFieldsStep(v, keys, i, r);
    var k, last := keys[i], i + 1 == |keys|;
    var value := v.fields[k];
    var more := if last then "}" + r else "," + (PrintFields(v, keys[i + 1..]) + r);
    var colon := ":" + (Print(value) + more);
    var s := "\"" + (Escaped(k) + "\"" + colon);
    assert s[1..] == Escaped(k) + "\"" + colon && colon[1..] == Print(value) + more;
    StringRoundTrip(k, colon);
    Punctuation(more);
    ValueRoundTrip(value, more, depth);
    StepField(s, depth, Earlier(v, keys[..i]), i == 0, k, colon, value, more);
    EarlierNext(v, keys, i);
    if last {
      assert more[1..] == r && keys[..i + 1] == keys;
      AllEarlier(v, keys);
    } else {
      assert more[1..] == PrintFields(v, keys[i + 1..]) + r;
      ObjectRoundTrip(v, keys, i + 1, r, depth);
    }
  }

  lemma AllEarlier(v: Value, keys: seq<string>)
    requires v.Object? && keys == Keys(v.fields.Keys)
    ensures Earlier(v, keys) == v.fields
  {
  }

  /** What was printed parses back to the same value. */
  lemma PrintThenParse(v: Value)
    requires Printable(v, DEPTH_LIMIT)
    ensures Parse(Print(v)) == Some(v)
  {
    ValueRoundTrip(v, "", DEPTH_LIMIT);
    assert Print(v) + "" == Print(v);
  }
}
