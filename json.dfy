/** JSON values as Python's `json` module hands them to the fetchers, and the
    few Python operations the fetchers apply to them: dictionary lookup,
    truthiness, iteration, `str()`/`repr()` rendering and `json.dumps`. */
module Json {
  import opened Wrappers

  /** A decoded JSON value.  Objects keep their keys in document order, as
      Python dictionaries do.  A number with a fraction or an exponent
      becomes a Python `float`; the model carries the text Python's `repr`
      prints for it. */
  datatype Value =
    | Null
    | Bool(b: bool)
    | Int(i: int)
    | Float(repr: string)
    | Str(s: string)
    | Arr(items: seq<Value>)
    | Obj(fields: seq<(string, Value)>)

  type Fields = seq<(string, Value)>

  // ----- dictionaries -----

  /** `k in d`. */
  predicate HasKey(fields: Fields, k: string) {
    exists i :: 0 <= i < |fields| && fields[i].0 == k
  }

  /** The keys of a dictionary, in order. */
  function Keys(fields: Fields): (r: seq<string>)
    ensures |r| == |fields|
    ensures forall i :: 0 <= i < |fields| ==> r[i] == fields[i].0
  {
    if fields == [] then [] else [fields[0].0] + Keys(fields[1..])
  }

  /** Python dictionaries never repeat a key. */
  predicate DistinctKeys(fields: Fields) {
    forall i, j :: 0 <= i < j < |fields| ==> fields[i].0 != fields[j].0
  }

  /** `d.get(k)`: the value stored under `k`, if any. */
  function Get(fields: Fields, k: string): (r: Option<Value>)
    ensures r.Some? <==> HasKey(fields, k)
  {
    if fields == [] then None
    else if fields[0].0 == k then Some(fields[0].1)
    else
      HasKeyTail(fields, k);
      Get(fields[1..], k)
  }

  lemma HasKeyTail(fields: Fields, k: string)
    requires fields != [] && fields[0].0 != k
    ensures HasKey(fields, k) <==> HasKey(fields[1..], k)
  {
    if HasKey(fields, k) {
      var i :| 0 <= i < |fields| && fields[i].0 == k;
      assert fields[1..][i - 1].0 == k;
    }
    if HasKey(fields[1..], k) {
      var i :| 0 <= i < |fields[1..]| && fields[1..][i].0 == k;
      assert fields[i + 1].0 == k;
    }
  }

  /** In a dictionary, the value found under a key is the one paired with it. */
  lemma {:induction false} GetMember(fields: Fields, k: string, v: Value)
    requires DistinctKeys(fields)
    ensures Get(fields, k) == Some(v) <==> (k, v) in fields
  {
    if fields != [] {
      assert DistinctKeys(fields[1..]) by {
        forall i, j | 0 <= i < j < |fields[1..]| ensures fields[1..][i].0 != fields[1..][j].0 {
          assert fields[1..][i] == fields[i + 1] && fields[1..][j] == fields[j + 1];
        }
      }
      GetMember(fields[1..], k, v);
      assert fields == [fields[0]] + fields[1..];
      if fields[0].0 == k {
        forall x | x in fields[1..] ensures x.0 != k {
          var i :| 0 <= i < |fields[1..]| && fields[1..][i] == x;
          assert fields[i + 1] == x;
        }
      }
    }
  }

  /** `d.get(k, default)`. */
  function GetOr(fields: Fields, k: string, default: Value): (r: Value)
    ensures HasKey(fields, k) ==> Some(r) == Get(fields, k)
    ensures !HasKey(fields, k) ==> r == default
  {
    match Get(fields, k)
    case Some(v) => v
    case None => default
  }

  /** `d.values()`, in order. */
  function Values(fields: Fields): (r: seq<Value>)
    ensures |r| == |fields|
    ensures forall i :: 0 <= i < |fields| ==> r[i] == fields[i].1
  {
    if fields == [] then [] else [fields[0].1] + Values(fields[1..])
  }

  /** `d[k] = v`: an existing key keeps its place, a new key goes last. */
  function SetField(fields: Fields, k: string, v: Value): (r: Fields)
    ensures Get(r, k) == Some(v)
    ensures forall k' :: k' != k ==> Get(r, k') == Get(fields, k')
  {
    if fields == [] then [(k, v)]
    else if fields[0].0 == k then [(k, v)] + fields[1..]
    else [fields[0]] + SetField(fields[1..], k, v)
  }

  /** Assigning to a key leaves the key order alone, except that a new key
      is appended. */
  lemma {:induction false} SetFieldKeys(fields: Fields, k: string, v: Value)
    ensures HasKey(fields, k) ==> Keys(SetField(fields, k, v)) == Keys(fields)
    ensures !HasKey(fields, k) ==> Keys(SetField(fields, k, v)) == Keys(fields) + [k]
  {
    if fields == [] {
      assert Keys([(k, v)]) == [k];
    } else {
      var head := fields[0];
      KeysCons(head, fields[1..]);
      assert [head] + fields[1..] == fields;
      if head.0 == k {
        assert HasKey(fields, k) by { assert fields[0].0 == k; }
        KeysCons((k, v), fields[1..]);
      } else {
        SetFieldKeys(fields[1..], k, v);
        HasKeyTail(fields, k);
        var tail := SetField(fields[1..], k, v);
        assert SetField(fields, k, v) == [head] + tail;
        KeysCons(head, tail);
        AppendAssoc([head.0], Keys(fields[1..]), [k]);
      }
    }
  }

  /** Concatenation associates. */
  lemma AppendAssoc<T>(a: seq<T>, b: seq<T>, c: seq<T>)
    ensures a + (b + c) == (a + b) + c
  {
  }

  /** Assigning to a new key appends it. */
  lemma {:induction false} SetFieldNew(fields: Fields, k: string, v: Value)
    requires !HasKey(fields, k)
    ensures SetField(fields, k, v) == fields + [(k, v)]
  {
    if fields != [] {
      HasKeyTail(fields, k);
      SetFieldNew(fields[1..], k, v);
      ConsAppend(fields, (k, v));
    }
  }

  lemma ConsAppend(fields: Fields, p: (string, Value))
    requires fields != []
    ensures [fields[0]] + (fields[1..] + [p]) == fields + [p]
  {
  }

  /** Assigning to a key never makes a key appear twice. */
  lemma SetFieldDistinct(fields: Fields, k: string, v: Value)
    requires DistinctKeys(fields)
    ensures DistinctKeys(SetField(fields, k, v))
  {
    var r := SetField(fields, k, v);
    SetFieldKeys(fields, k, v);
    if !HasKey(fields, k) {
      forall i, j | 0 <= i < j < |r| ensures r[i].0 != r[j].0 {
        assert Keys(r)[i] == r[i].0 && Keys(r)[j] == r[j].0;
        if j == |fields| {
          assert Keys(r)[i] == Keys(fields)[i] == fields[i].0;
        }
      }
    } else {
      forall i, j | 0 <= i < j < |r| ensures r[i].0 != r[j].0 {
        assert Keys(r)[i] == r[i].0 && Keys(r)[j] == r[j].0;
        assert Keys(fields)[i] == fields[i].0 && Keys(fields)[j] == fields[j].0;
      }
    }
  }

  /** A value as `json.loads` produces it: no dictionary repeats a key. */
  predicate Decoded(v: Value)
    decreases v
  {
    match v
    case Arr(items) => forall i :: 0 <= i < |items| ==> Decoded(items[i])
    case Obj(fields) => DistinctKeys(fields) && forall i :: 0 <= i < |fields| ==> Decoded(fields[i].1)
    case _ => true
  }

  lemma KeysCons(p: (string, Value), fields: Fields)
    ensures Keys([p] + fields) == [p.0] + Keys(fields)
  {
    assert ([p] + fields)[1..] == fields;
  }

  // ----- Python built-ins -----

  /** `bool(v)`: `None`, `False`, zero, and empty strings, lists and
      dictionaries are false. */
  predicate Truthy(v: Value) {
    match v
    case Null => false
    case Bool(b) => b
    case Int(i) => i != 0
    case Float(r) => !IsZeroFloatRepr(r)
    case Str(s) => |s| > 0
    case Arr(items) => |items| > 0
    case Obj(fields) => |fields| > 0
  }

  predicate IsZeroFloatRepr(r: string) {
    r == "0.0" || r == "-0.0"
  }

  /** `for x in v`: a list yields its items, a dictionary its keys, a string
      its characters; anything else raises `TypeError`. */
  function Iterate(v: Value): (r: Option<seq<Value>>)
    ensures r.Some? <==> v.Arr? || v.Obj? || v.Str?
    ensures v.Arr? ==> r == Some(v.items)
    ensures v.Obj? ==> r.Some? && |r.value| == |v.fields|
    ensures v.Str? ==> r.Some? && |r.value| == |v.s|
  {
    match v
    case Arr(items) => Some(items)
    case Obj(fields) => Some(seq(|fields|, i requires 0 <= i < |fields| => Str(fields[i].0)))
    case Str(s) => Some(seq(|s|, i requires 0 <= i < |s| => Str([s[i]])))
    case _ => None
  }

  /** `len(v)`: defined for strings, lists and dictionaries. */
  function Len(v: Value): (r: Option<nat>)
    ensures r.Some? <==> v.Arr? || v.Obj? || v.Str?
    ensures r.Some? ==> (r.value == 0 <==> !Truthy(v))
  {
    match v
    case Arr(items) => Some(|items|)
    case Obj(fields) => Some(|fields|)
    case Str(s) => Some(|s|)
    case _ => None
  }

  // ----- rendering -----

  function DigitChar(d: nat): char
    requires d < 10
  {
    "0123456789"[d]
  }

  /** Decimal digits of a natural number, most significant first. */
  function NatToString(n: nat): (r: string)
    ensures |r| > 0
    ensures forall i :: 0 <= i < |r| ==> '0' <= r[i] <= '9'
    decreases n
  {
    if n < 10 then [DigitChar(n)] else NatToString(n / 10) + [DigitChar(n % 10)]
  }

  /** `str(i)` for a Python `int`. */
  function IntToString(i: int): string {
    if i < 0 then "-" + NatToString(-i) else NatToString(i)
  }

  /** Strings joined with a separator, as `sep.join(parts)`. */
  function Join(sep: string, parts: seq<string>): (r: string)
    ensures parts == [] ==> r == ""
    ensures |parts| == 1 ==> r == parts[0]
  {
    if parts == [] then ""
    else if |parts| == 1 then parts[0]
    else parts[0] + sep + Join(sep, parts[1..])
  }

  /** The quote `repr` puts around a string: a double quote when the string
      holds a single quote and no double quote, a single quote otherwise. */
  function ReprQuote(s: string): (q: char)
    ensures q == '"' <==> '\'' in s && '"' !in s
    ensures q == '\'' || q == '"'
  {
    if '\'' in s && '"' !in s then '"' else '\''
  }

  /** One character inside a `repr` quoted with `q`: the quote and the
      backslash escaped, the short escapes for newline, carriage return and
      tab, `\xhh` for the other ASCII control characters. */
  function ReprEscapeChar(c: char, q: char): string {
    if c == '\\' || c == q then ['\\', c]
    else if c == '\n' then "\\n"
    else if c == '\r' then "\\r"
    else if c == '\t' then "\\t"
    else if c < ' ' || c as int == 0x7f then ['\\', 'x', HexDigit(c as int / 16), HexDigit(c as int % 16)]
    else [c]
  }

  function ReprEscape(s: string, q: char): string {
    if s == [] then "" else ReprEscapeChar(s[0], q) + ReprEscape(s[1..], q)
  }

  /** `repr(s)` of a string. */
  function QuoteRepr(s: string): (r: string)
    ensures |r| >= 2 && r[0] == r[|r| - 1] == ReprQuote(s)
  {
    var q := ReprQuote(s);
    [q] + ReprEscape(s, q) + [q]
  }

  /** The value of a lower-case hexadecimal digit. */
  function HexValue(c: char): Option<nat> {
    if '0' <= c <= '9' then Some(c as int - '0' as int)
    else if 'a' <= c <= 'f' then Some(c as int - 'a' as int + 10)
    else None
  }

  /** Reads back the escapes `repr` writes between the quotes. */
  function ReprUnescape(t: string): Option<string>
    decreases |t|
  {
    if t == [] then Some([])
    else if t[0] != '\\' then
      match ReprUnescape(t[1..])
      case None => None
      case Some(rest) => Some([t[0]] + rest)
    else if |t| < 2 then None
    else if t[1] == 'x' then
      if |t| < 4 then None
      else match (HexValue(t[2]), HexValue(t[3]))
        case (Some(h), Some(l)) =>
          (match ReprUnescape(t[4..])
           case None => None
           case Some(rest) => Some([(16 * h + l) as char] + rest))
        case _ => None
    else
      var c := if t[1] == 'n' then '\n' else if t[1] == 'r' then '\r' else if t[1] == 't' then '\t' else t[1];
      match ReprUnescape(t[2..])
      case None => None
      case Some(rest) => Some([c] + rest)
  }

  /** Reads back `repr` of a string. */
  function ReprUnquote(t: string): Option<string> {
    if |t| >= 2 && t[0] == t[|t| - 1] && (t[0] == '\'' || t[0] == '"') then ReprUnescape(t[1..|t| - 1])
    else None
  }

  lemma HexRoundTrip(d: nat)
    requires d < 16
    ensures HexValue(HexDigit(d)) == Some(d)
  {
  }

  /** Reading back one escaped character. */
  lemma ReprUnescapeChar(c: char, q: char, rest: string)
    requires q == '\'' || q == '"'
    ensures ReprUnescape(ReprEscapeChar(c, q) + rest) ==
      match ReprUnescape(rest) case None => None case Some(s) => Some([c] + s)
  {
    var t := ReprEscapeChar(c, q) + rest;
    if c == '\\' || c == q || c == '\n' || c == '\r' || c == '\t' {
      assert t[2..] == rest;
    } else if c < ' ' || c as int == 0x7f {
      HexRoundTrip(c as int / 16);
      HexRoundTrip(c as int % 16);
      assert t[4..] == rest;
    } else {
      assert t[1..] == rest;
    }
  }

  lemma {:induction false} ReprEscapeRoundTrip(s: string, q: char)
    requires q == '\'' || q == '"'
    ensures ReprUnescape(ReprEscape(s, q)) == Some(s)
  {
    if s != [] {
      ReprEscapeRoundTrip(s[1..], q);
      ReprUnescapeChar(s[0], q, ReprEscape(s[1..], q));
      assert [s[0]] + s[1..] == s;
    }
  }

  /** `repr` of a string reads back as that string, so two different
      strings never have the same `repr`. */
  lemma ReprRoundTrip(s: string)
    ensures ReprUnquote(QuoteRepr(s)) == Some(s)
  {
    var q := ReprQuote(s);
    var t := QuoteRepr(s);
    assert t[1..|t| - 1] == ReprEscape(s, q);
    ReprEscapeRoundTrip(s, q);
  }

  lemma QuoteReprInjective(a: string, b: string)
    requires QuoteRepr(a) == QuoteRepr(b)
    ensures a == b
  {
    ReprRoundTrip(a);
    ReprRoundTrip(b);
  }

  /** `repr(v)`: strings quoted, containers rendered element by element. */
  function Repr(v: Value): string
    decreases v
  {
    match v
    case Null => "None"
    case Bool(b) => if b then "True" else "False"
    case Int(i) => IntToString(i)
    case Float(r) => r
    case Str(s) => QuoteRepr(s)
    case Arr(items) =>
      "[" + Join(", ", seq(|items|, i requires 0 <= i < |items| => Repr(items[i]))) + "]"
    case Obj(fields) =>
      "{" + Join(", ", seq(|fields|, i requires 0 <= i < |fields| =>
                         QuoteRepr(fields[i].0) + ": " + Repr(fields[i].1))) + "}"
  }

  /** `str(v)`: like `repr`, except that a string is itself. */
  function PyStr(v: Value): (r: string)
    ensures v.Str? ==> r == v.s
    ensures !v.Str? ==> r == Repr(v)
  {
    if v.Str? then v.s else Repr(v)
  }

  /** The JSON text of a string, escaped as `json.dumps` does by default
      (`ensure_ascii=True`). */
  function JsonString(s: string): (r: string)
    ensures forall i :: 0 <= i < |r| ==> Printable(r[i])
  {
    "\"" + JsonEscape(s) + "\""
  }

  predicate Printable(c: char) {
    ' ' <= c <= '~'
  }

  function HexDigit(d: nat): (c: char)
    requires d < 16
    ensures Printable(c)
  {
    "0123456789abcdef"[d]
  }

  /** Four lower-case hexadecimal digits. */
  function Hex4(n: nat): (r: string)
    requires n < 0x10000
    ensures |r| == 4 && forall i :: 0 <= i < 4 ==> Printable(r[i])
  {
    [HexDigit(n / 0x1000), HexDigit(n / 0x100 % 16), HexDigit(n / 16 % 16), HexDigit(n % 16)]
  }

  /** One character as the encoder writes it: quote and backslash escaped,
      the usual short escapes for control characters, `\uXXXX` for any
      other character outside printable ASCII, and a surrogate pair for a
      character beyond the Basic Multilingual Plane. */
  function EscapeChar(c: char): (r: string)
    ensures |r| > 0 && forall i :: 0 <= i < |r| ==> Printable(r[i])
    ensures Printable(c) && c != '"' && c != '\\' ==> r == [c]
  {
    if c == '"' then "\\\""
    else if c == '\\' then "\\\\"
    else if c == '\n' then "\\n"
    else if c == '\r' then "\\r"
    else if c == '\t' then "\\t"
    else if c as int == 8 then "\\b"
    else if c as int == 12 then "\\f"
    else if Printable(c) then [c]
    else if c as int < 0x10000 then "\\u" + Hex4(c as int)
    else
      var n := c as int - 0x10000;
      "\\u" + Hex4(0xD800 + n / 0x400) + "\\u" + Hex4(0xDC00 + n % 0x400)
  }

  function JsonEscape(s: string): (r: string)
    ensures forall i :: 0 <= i < |r| ==> Printable(r[i])
  {
    if s == [] then "" else EscapeChar(s[0]) + JsonEscape(s[1..])
  }

  /** `json.dumps(v)` with its default separators. */
  function Dumps(v: Value): string
    decreases v
  {
    match v
    case Null => "null"
    case Bool(b) => if b then "true" else "false"
    case Int(i) => IntToString(i)
    case Float(r) => r
    case Str(s) => JsonString(s)
    case Arr(items) =>
      "[" + Join(", ", seq(|items|, i requires 0 <= i < |items| => Dumps(items[i]))) + "]"
    case Obj(fields) =>
      "{" + Join(", ", seq(|fields|, i requires 0 <= i < |fields| =>
                         JsonString(fields[i].0) + ": " + Dumps(fields[i].1))) + "}"
  }
}
