/** Compact JSON text: the string escapes of section 7 of RFC 8259, "," and ":" as the only separators. */
module Json {
  datatype Json =
    | Null
    | Boolean(flag: bool)
    | Number(digits: string)
    | Text(text: string)
    | List(items: seq<Json>)
    | Object(members: seq<(string, Json)>)

  function HexDigit(n: nat): char
    requires n < 16
  {
    "0123456789abcdef"[n]
  }

  /** How one character is written inside a string; only quote, backslash and control characters change. */
  function Escape(c: char): (e: string)
    ensures 1 <= |e| <= 6
  {
    if c == '\"' then "\\\""
    else if c == '\\' then "\\\\"
    else if c == '\n' then "\\n"
    else if c == '\r' then "\\r"
    else if c == '\t' then "\\t"
    else if c as int == 8 then "\\b"
    else if c as int == 12 then "\\f"
    else if (c as int) < 32 then ['\\', 'u', '0', '0', HexDigit(c as int / 16), HexDigit(c as int % 16)]
    else [c]
  }

  function Escaped(s: string): string {
    if s == [] then [] else Escape(s[0]) + Escaped(s[1..])
  }

  function Quoted(s: string): string {
    "\"" + Escaped(s) + "\""
  }

  function Joined(parts: seq<string>): string {
    if parts == [] then []
    else if |parts| == 1 then parts[0]
    else parts[0] + "," + Joined(parts[1..])
  }

  function Serialize(v: Json): string {
    match v
    case Null => "null"
    case Boolean(flag) => if flag then "true" else "false"
    case Number(digits) => digits
    case Text(text) => Quoted(text)
    case List(items) => "[" + Joined(seq(|items|, i requires 0 <= i < |items| => Serialize(items[i]))) + "]"
    case Object(members) =>
      "{" + Joined(seq(|members|, i requires 0 <= i < |members| =>
        Quoted(members[i].0) + ":" + Serialize(members[i].1))) + "}"
  }

  /** Number of characters of the serialized form. */
  function Size(v: Json): nat {
    |Serialize(v)|
  }

  function HexValue(c: char): nat {
    if '0' <= c <= '9' then c as int - '0' as int
    else if 'a' <= c <= 'f' then c as int - 'a' as int + 10
    else 0
  }

  /** The first character an escaped text stands for, and how many characters spell it. */
  function ReadOne(e: string): (r: (char, nat))
    requires e != []
    ensures 1 <= r.1 <= |e|
  {
    if e[0] != '\\' || |e| == 1 then (e[0], 1)
    else if e[1] == 'u' && |e| >= 6 then ((HexValue(e[4]) * 16 + HexValue(e[5])) as char, 6)
    else if e[1] == 'n' then ('\n', 2)
    else if e[1] == 'r' then ('\r', 2)
    else if e[1] == 't' then ('\t', 2)
    else if e[1] == 'b' then (8 as char, 2)
    else if e[1] == 'f' then (12 as char, 2)
    else (e[1], 2)
  }

  /** Reads the characters back as a parser following section 7 of RFC 8259 does. */
  function Unescaped(e: string): string {
    if e == [] then [] else [ReadOne(e).0] + Unescaped(e[ReadOne(e).1..])
  }

  lemma HexRoundTrip(n: nat)
    requires n < 16
    ensures HexValue(HexDigit(n)) == n
  {
  }

  lemma ReadHex(n: nat, rest: string)
    requires n < 32
    ensures ReadOne(['\\', 'u', '0', '0', HexDigit(n / 16), HexDigit(n % 16)] + rest) == (n as char, 6)
  {
    HexRoundTrip(n / 16);
    HexRoundTrip(n % 16);
  }

  lemma ReadEscape(c: char, rest: string)
    ensures ReadOne(Escape(c) + rest) == (c, |Escape(c)|)
  {
    if (c as int) < 32 && |Escape(c)| == 6 { ReadHex(c as int, rest); }
  }

  lemma UnescapeOne(c: char, rest: string)
    ensures Unescaped(Escape(c) + rest) == [c] + Unescaped(rest)
  {
    hide Escape, ReadOne;
    ReadEscape(c, rest);
    assert (Escape(c) + rest)[|Escape(c)|..] == rest;
  }

  /** Escaping loses nothing: a parser reads the original text back. */
  lemma {:induction false} EscapeRoundTrip(s: string)
    ensures Unescaped(Escaped(s)) == s
  {
    if s != [] {
      hide Escape;
      EscapeRoundTrip(s[1..]);
      UnescapeOne(s[0], Escaped(s[1..]));
    }
  }

  lemma {:induction false} EscapedGrows(s: string, k: nat)
    requires k <= |s|
    ensures |Escaped(s[..k])| + (|s| - k) <= |Escaped(s)|
  {
    if k > 0 {
      EscapedGrows(s[1..], k - 1);
      assert s[..k][0] == s[0] && s[..k][1..] == s[1..][..k - 1];
    } else if s != [] {
      EscapedGrows(s[1..], 0);
      assert s[1..][..0] == s[..0];
    }
  }

  function Comma(a: seq<string>, b: seq<string>): nat {
    if a == [] || b == [] then 0 else 1
  }

  lemma {:induction false} JoinedLength(a: seq<string>, b: seq<string>)
    ensures |Joined(a + b)| == |Joined(a)| + |Joined(b)| + Comma(a, b)
    decreases |a|
  {
    if a == [] {
      assert a + b == b;
    } else if b == [] {
      assert a + b == a;
    } else {
      assert (a + b)[1..] == a[1..] + b;
      JoinedLength(a[1..], b);
    }
  }

  function Parts(items: seq<Json>): seq<string> {
    seq(|items|, i requires 0 <= i < |items| => Serialize(items[i]))
  }

  /** A list that contains another as its first or last part is at least as long. */
  lemma ListLength(a: seq<Json>, b: seq<Json>)
    ensures Size(List(a + b)) == 2 + |Joined(Parts(a))| + |Joined(Parts(b))| + Comma(Parts(a), Parts(b))
    ensures Size(List(a + b)) >= Size(List(a)) && Size(List(a + b)) >= Size(List(b))
  {
    assert Parts(a + b) == Parts(a) + Parts(b);
    JoinedLength(Parts(a), Parts(b));
    ListSize(a + b);
    ListSize(a);
    ListSize(b);
  }

  lemma ListSize(a: seq<Json>)
    ensures Size(List(a)) == 2 + |Joined(Parts(a))|
  {
    assert Serialize(List(a)) == "[" + Joined(Parts(a)) + "]";
  }

  lemma SingletonSize(v: Json)
    ensures Size(List([v])) == Size(v) + 2
  {
    ListSize([v]);
  }

  /** A shorter beginning of a text never serializes longer. */
  lemma TextMonotone(s: string, j: nat, k: nat)
    requires j <= k <= |s|
    ensures Size(Text(s[..j])) <= Size(Text(s[..k])) - (k - j)
  {
    assert s[..k][..j] == s[..j];
    EscapedGrows(s[..k], j);
  }

  lemma {:induction false} PlainText(s: string)
    requires forall i :: 0 <= i < |s| ==> 'a' <= s[i] <= 'z' || s[i] == '_'
    ensures Escaped(s) == s
  {
    if s != [] { PlainText(s[1..]); }
  }

  lemma ObjectText(members: seq<(string, Json)>, parts: seq<string>)
    requires |parts| == |members|
    requires forall i :: 0 <= i < |parts| ==> parts[i] == Quoted(members[i].0) + ":" + Serialize(members[i].1)
    ensures Serialize(Object(members)) == "{" + Joined(parts) + "}"
  {
    assert parts == seq(|members|, i requires 0 <= i < |members| =>
      Quoted(members[i].0) + ":" + Serialize(members[i].1));
  }
}
