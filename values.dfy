/**
 * Python values as the service stores and reads them: the JSON documents
 * it writes with `json.dumps`, the profiles and manifest entries it reads
 * back, and the raw settings value it validates. A `dict` keeps its keys in
 * insertion order, as Python's does.
 */
module Values {
  import opened Wrappers
  import opened Text

  datatype Value =
    | VNone
    | VBool(b: bool)
    | VInt(i: int)
    | VStr(s: string)
    | VList(items: seq<Value>)
    | VTuple(items: seq<Value>)
    | VDict(entries: seq<(string, Value)>)

  type Entries = seq<(string, Value)>

  /** The keys of a dict, in insertion order. */
  function Keys(d: Entries): (ks: seq<string>)
    ensures |ks| == |d|
    ensures forall i :: 0 <= i < |d| ==> ks[i] == d[i].0
  {
    if d == [] then [] else [d[0].0] + Keys(d[1..])
  }

  /** No key occurs twice: every Python dict is like this. */
  predicate UniqueKeys(d: Entries) {
    forall i, j :: 0 <= i < j < |d| ==> d[i].0 != d[j].0
  }

  /** `d.get(k)`: the value stored under `k`, if any. */
  function Get(d: Entries, k: string): (r: Option<Value>)
    ensures r.Some? <==> k in Keys(d)
    ensures r.Some? ==> (k, r.value) in d
  {
    if d == [] then None
    else if d[0].0 == k then Some(d[0].1)
    else
      assert Keys(d) == [d[0].0] + Keys(d[1..]);
      Get(d[1..], k)
  }

  /** Looking a key up in a dict with one more entry in front. */
  lemma GetCons(e: (string, Value), d: Entries, k: string)
    ensures Get([e] + d, k) == if e.0 == k then Some(e.1) else Get(d, k)
  {
    assert ([e] + d)[1..] == d;
  }

  /** In a dict without repeated keys, every entry is what its key looks up. */
  lemma {:induction false} GetAt(d: Entries, i: nat)
    requires UniqueKeys(d) && i < |d|
    ensures Get(d, d[i].0) == Some(d[i].1)
  {
    if i > 0 {
      assert d[1..][i - 1] == d[i];
      GetAt(d[1..], i - 1);
    }
  }

  /**
   * `d[k] = v`: an existing key keeps its position and takes the new value;
   * a new key goes to the end.
   */
  function Put(d: Entries, k: string, v: Value): (r: Entries)
    ensures Keys(r) == if k in Keys(d) then Keys(d) else Keys(d) + [k]
  {
    if d == [] then [(k, v)]
    else if d[0].0 == k then
      assert Keys(d) == [k] + Keys(d[1..]);
      assert Keys([(k, v)] + d[1..]) == [k] + Keys(d[1..]);
      [(k, v)] + d[1..]
    else
      var rest := Put(d[1..], k, v);
      assert Keys(d) == [d[0].0] + Keys(d[1..]);
      assert Keys([d[0]] + rest) == [d[0].0] + Keys(rest);
      [d[0]] + rest
  }

  /** After `d[k] = v`, `k` looks up `v` and every other key what it did before. */
  lemma {:induction false} PutGet(d: Entries, k: string, v: Value, k': string)
    ensures Get(Put(d, k, v), k') == if k' == k then Some(v) else Get(d, k')
  {
    if d == [] {
    } else if d[0].0 == k {
      GetCons((k, v), d[1..], k');
      GetCons(d[0], d[1..], k');
      assert [d[0]] + d[1..] == d;
    } else {
      PutGet(d[1..], k, v, k');
      GetCons(d[0], Put(d[1..], k, v), k');
      GetCons(d[0], d[1..], k');
      assert [d[0]] + d[1..] == d;
    }
  }

  /** Putting into a dict without repeated keys keeps it so. */
  lemma PutUnique(d: Entries, k: string, v: Value)
    requires UniqueKeys(d)
    ensures UniqueKeys(Put(d, k, v))
  {
    var r := Put(d, k, v);
    forall i, j | 0 <= i < j < |r| ensures r[i].0 != r[j].0 {
      assert Keys(r)[i] == r[i].0 && Keys(r)[j] == r[j].0;
      if k in Keys(d) {
        assert Keys(d)[i] == d[i].0 && Keys(d)[j] == d[j].0;
      } else if j < |d| {
        assert Keys(d)[i] == d[i].0 && Keys(d)[j] == d[j].0;
      } else {
        assert Keys(d)[i] == d[i].0;
      }
    }
  }

  /** `{**d, **e}`: the entries of `e` put into `d` one after the other. */
  function Merge(d: Entries, e: Entries): (r: Entries)
    decreases |e|
  {
    if e == [] then d else Merge(Put(d, e[0].0, e[0].1), e[1..])
  }

  /** Later entries win in a merge; keys from neither side are absent. */
  lemma {:induction false} MergeGet(d: Entries, e: Entries, k: string)
    requires UniqueKeys(e)
    ensures Get(Merge(d, e), k) == if k in Keys(e) then Get(e, k) else Get(d, k)
    decreases |e|
  {
    if e != [] {
      var d' := Put(d, e[0].0, e[0].1);
      assert UniqueKeys(e[1..]);
      MergeGet(d', e[1..], k);
      PutGet(d, e[0].0, e[0].1, k);
      assert e == [e[0]] + e[1..];
      GetCons(e[0], e[1..], k);
      assert Keys(e) == [e[0].0] + Keys(e[1..]);
      if k == e[0].0 {
        assert k !in Keys(e[1..]);
      }
    }
  }

  lemma {:induction false} MergeUnique(d: Entries, e: Entries)
    requires UniqueKeys(d)
    ensures UniqueKeys(Merge(d, e))
    decreases |e|
  {
    if e != [] {
      PutUnique(d, e[0].0, e[0].1);
      MergeUnique(Put(d, e[0].0, e[0].1), e[1..]);
    }
  }

  /** Merging never moves or removes a key already present. */
  lemma {:induction false} MergeKeepsPrefix(d: Entries, e: Entries)
    ensures |Keys(d)| <= |Keys(Merge(d, e))|
    ensures Keys(Merge(d, e))[..|Keys(d)|] == Keys(d)
    decreases |e|
  {
    if e != [] {
      var d' := Put(d, e[0].0, e[0].1);
      MergeKeepsPrefix(d', e[1..]);
      assert Keys(d')[..|Keys(d)|] == Keys(d);
    }
  }

  /** Python truthiness: `bool(v)`. */
  predicate Truthy(v: Value) {
    match v
    case VNone => false
    case VBool(b) => b
    case VInt(i) => i != 0
    case VStr(s) => s != []
    case VList(xs) => xs != []
    case VTuple(xs) => xs != []
    case VDict(es) => es != []
  }

  function DigitChar(d: nat): char
    requires d < 10
  {
    ['0', '1', '2', '3', '4', '5', '6', '7', '8', '9'][d]
  }

  /** `str(n)` for a natural number: its decimal digits. */
  function NatToString(n: nat): (r: string)
    ensures |r| >= 1
    ensures forall i :: 0 <= i < |r| ==> '0' <= r[i] <= '9'
  {
    if n < 10 then [DigitChar(n)] else NatToString(n / 10) + [DigitChar(n % 10)]
  }

  /** `str(i)` for an integer. */
  function IntToString(i: int): string {
    if i < 0 then "-" + NatToString(-i) else NatToString(i)
  }

  /**
   * `str(v)`: a string is itself; `None`, booleans and integers print as
   * Python prints them; containers print their elements' `repr`.
   */
  function Show(v: Value): (r: string)
    ensures v.VStr? ==> r == v.s
    ensures v.VNone? ==> r == "None"
    ensures v.VBool? ==> r == if v.b then "True" else "False"
    ensures v.VInt? ==> r == IntToString(v.i)
    ensures v.VList? || v.VTuple? || v.VDict? ==> r == Repr(v)
  {
    match v
    case VStr(s) => s
    case _ => Repr(v)
  }

  /** `repr(v)`: strings are quoted and escaped by `ReprString`. */
  function Repr(v: Value): string
    decreases v, 1
  {
    match v
    case VNone => "None"
    case VBool(b) => if b then "True" else "False"
    case VInt(i) => IntToString(i)
    case VStr(s) => ReprString(s)
    case VList(xs) => "[" + ReprItems(v, xs) + "]"
    case VTuple(xs) => "(" + ReprItems(v, xs) + (if |xs| == 1 then ",)" else ")")
    case VDict(es) => "{" + ReprEntries(v, es) + "}"
  }

  function ReprItems(ghost parent: Value, xs: seq<Value>): string
    requires forall i :: 0 <= i < |xs| ==> xs[i] < parent
    decreases parent, 0, |xs|
  {
    if xs == [] then []
    else if |xs| == 1 then Repr(xs[0])
    else Repr(xs[0]) + ", " + ReprItems(parent, xs[1..])
  }

  function ReprEntries(ghost parent: Value, es: Entries): string
    requires forall i :: 0 <= i < |es| ==> es[i].1 < parent
    decreases parent, 0, |es|
  {
    if es == [] then []
    else
      var item := ReprString(es[0].0) + ": " + Repr(es[0].1);
      if |es| == 1 then item else item + ", " + ReprEntries(parent, es[1..])
  }

  // ----- repr of a string -----

  /** The quote `repr` puts around `s`: a double quote when `s` holds a single quote and no double quote. */
  function QuoteFor(s: string): (q: char)
    ensures q == '"' <==> '\'' in s && '"' !in s
    ensures q == '"' || q == '\''
  {
    if '\'' in s && '"' !in s then '"' else '\''
  }

  function HexDigit(d: nat): char
    requires d < 16
  {
    "0123456789abcdef"[d]
  }

  predicate IsHexDigit(c: char) {
    '0' <= c <= '9' || 'a' <= c <= 'f'
  }

  function HexValue(c: char): (d: nat)
    requires IsHexDigit(c)
    ensures d < 16
  {
    if c <= '9' then c as int - '0' as int else c as int - 'a' as int + 10
  }

  lemma HexValueDigit(d: nat)
    requires d < 16
    ensures IsHexDigit(HexDigit(d)) && HexValue(HexDigit(d)) == d
  {
  }

  /**
   * The characters `repr` writes as `\xNN`: the C0 controls other than tab,
   * newline and carriage return, DEL, the C1 controls, no-break space and
   * soft hyphen.
   */
  predicate HexEscaped(c: char) {
    c as int < 0x20 || 0x7f <= c as int <= 0xa0 || c as int == 0xad
  }

  /** How `repr` writes one character of a string quoted with `q`. */
  function EscapeChar(c: char, q: char): (r: string)
    ensures |r| >= 1
  {
    if c == '\\' || c == q then ['\\', c]
    else if c == '\t' then "\\t"
    else if c == '\n' then "\\n"
    else if c == '\r' then "\\r"
    else if HexEscaped(c) then ['\\', 'x', HexDigit(c as int / 16), HexDigit(c as int % 16)]
    else [c]
  }

  function EscapeString(s: string, q: char): string {
    if s == [] then [] else EscapeChar(s[0], q) + EscapeString(s[1..], q)
  }

  /** `repr(s)` for a string. */
  function ReprString(s: string): string {
    var q := QuoteFor(s);
    [q] + EscapeString(s, q) + [q]
  }

  /** Reading an escaped string back: each backslash sequence becomes the character it stands for. */
  function Unescape(t: string): string
    decreases |t|
  {
    if t == [] then []
    else if t[0] == '\\' && |t| >= 4 && t[1] == 'x' && IsHexDigit(t[2]) && IsHexDigit(t[3]) then
      [(HexValue(t[2]) * 16 + HexValue(t[3])) as char] + Unescape(t[4..])
    else if t[0] == '\\' && |t| >= 2 then
      [if t[1] == 't' then '\t' else if t[1] == 'n' then '\n' else if t[1] == 'r' then '\r' else t[1]] + Unescape(t[2..])
    else [t[0]] + Unescape(t[1..])
  }

  /** One escaped character is read back as itself, whatever follows it. */
  lemma UnescapeChar(c: char, q: char, rest: string)
    requires q == '"' || q == '\''
    ensures Unescape(EscapeChar(c, q) + rest) == [c] + Unescape(rest)
  {
    var e := EscapeChar(c, q);
    if c == '\\' || c == q {
      assert (e + rest)[2..] == rest;
    } else if c == '\t' || c == '\n' || c == '\r' {
      assert (e + rest)[2..] == rest;
    } else if HexEscaped(c) {
      HexValueDigit(c as int / 16);
      HexValueDigit(c as int % 16);
      assert (e + rest)[4..] == rest;
    } else {
      assert (e + rest)[1..] == rest;
    }
  }

  /** Escaping loses nothing: the escaped text reads back as the string. */
  lemma {:induction false} UnescapeEscape(s: string, q: char)
    requires q == '"' || q == '\''
    ensures Unescape(EscapeString(s, q)) == s
  {
    if s != [] {
      UnescapeChar(s[0], q, EscapeString(s[1..], q));
      UnescapeEscape(s[1..], q);
    }
  }

  /** A character that escapes to itself. */
  predicate Plain(c: char, q: char) {
    c != '\\' && c != q && c != '\t' && c != '\n' && c != '\r' && !HexEscaped(c)
  }

  /** The escaped text holds the quote only right after a backslash, so it cannot end the literal early. */
  lemma {:induction false} EscapedQuoteFollowsBackslash(s: string, q: char, i: nat)
    requires q == '"' || q == '\''
    requires i < |EscapeString(s, q)| && EscapeString(s, q)[i] == q
    ensures i > 0 && EscapeString(s, q)[i - 1] == '\\'
  {
    var e := EscapeChar(s[0], q);
    assert EscapeString(s, q) == e + EscapeString(s[1..], q);
    if i >= |e| {
      EscapedQuoteFollowsBackslash(s[1..], q, i - |e|);
      if i - |e| == 0 {
        assert false;
      }
    }
  }

  /** A string of plain characters is written as itself between its quotes. */
  lemma {:induction false} PlainEscapesToItself(s: string, q: char)
    requires forall i :: 0 <= i < |s| ==> Plain(s[i], q)
    ensures EscapeString(s, q) == s
  {
    if s != [] {
      PlainEscapesToItself(s[1..], q);
      assert s == [s[0]] + s[1..];
    }
  }

  /** `repr(s)` is `s` escaped between two equal quotes, and reads back as `s`. */
  lemma ReprStringReadsBack(s: string)
    ensures |ReprString(s)| >= 2
    ensures ReprString(s)[0] == ReprString(s)[|ReprString(s)| - 1] == QuoteFor(s)
    ensures Unescape(ReprString(s)[1..|ReprString(s)| - 1]) == s
  {
    var q := QuoteFor(s);
    assert ReprString(s)[1..|ReprString(s)| - 1] == EscapeString(s, q);
    UnescapeEscape(s, q);
  }

  /** A string without quotes, backslashes or escaped characters is written between single quotes as it is. */
  lemma PlainRepr(s: string)
    requires forall i :: 0 <= i < |s| ==> Plain(s[i], '\'')
    ensures ReprString(s) == "'" + s + "'"
  {
    assert '\'' !in s;
    PlainEscapesToItself(s, '\'');
  }
}
