/** A reader of compact JSON, and the proof that it gets back whatever was serialized. */
module JsonReader {
  import opened Prelude
  import opened Json

  // ----- the reader

  /** The text up to the closing quote, and what follows it. */
  function ReadString(e: string): (r: Option<(string, string)>)
    ensures r.Some? ==> |r.value.1| < |e|
  {
    if e == [] then None
    else if e[0] == '\"' then Some(("", e[1..]))
    else
      var (c, n) := ReadOne(e);
      match ReadString(e[n..])
      case None => None
      case Some((text, rest)) => Some(([c] + text, rest))
  }

  predicate NumberChar(c: char) {
    '0' <= c <= '9' || c in "+-.eE"
  }

  /** The longest beginning that consists of number characters. */
  function NumberPart(e: string): (r: string)
    ensures |r| <= |e| && r == e[..|r|]
  {
    if e == [] || !NumberChar(e[0]) then "" else [e[0]] + NumberPart(e[1..])
  }

  predicate StartsWith(e: string, word: string) {
    |word| <= |e| && e[..|word|] == word
  }

  lemma StartAt(e: string, word: string, i: nat)
    requires i < |word| && i < |e|
    ensures StartsWith(e, word) ==> e[i] == word[i]
  {
    if StartsWith(e, word) { assert e[..|word|][i] == e[i]; }
  }

  function ReadValue(e: string): (r: Option<(Json, string)>)
    ensures r.Some? ==> |r.value.1| < |e|
    decreases |e|, 0
  {
    if e == [] then None
    else if e[0] == '\"' then
      match ReadString(e[1..]) case None => None case Some((text, rest)) => Some((Text(text), rest))
    else if e[0] == '[' then
      if StartsWith(e, "[]") then Some((List([]), e[2..]))
      else match ReadItems(e[1..]) case None => None case Some((items, rest)) => Some((List(items), rest))
    else if e[0] == '{' then
      if StartsWith(e, "{}") then Some((Object([]), e[2..]))
      else match ReadMembers(e[1..]) case None => None case Some((members, rest)) => Some((Object(members), rest))
    else if StartsWith(e, "null") then Some((Null, e[4..]))
    else if StartsWith(e, "true") then Some((Boolean(true), e[4..]))
    else if StartsWith(e, "false") then Some((Boolean(false), e[5..]))
    else
      var digits := NumberPart(e);
      if digits == "" then None else Some((Number(digits), e[|digits|..]))
  }

  /** Values separated by commas, up to the closing bracket. */
  function ReadItems(e: string): (r: Option<(seq<Json>, string)>)
    ensures r.Some? ==> |r.value.1| < |e|
    decreases |e|, 1
  {
    match ReadValue(e)
    case None => None
    case Some((item, rest)) =>
      if rest == [] then None
      else if rest[0] == ']' then Some(([item], rest[1..]))
      else if rest[0] != ',' then None
      else match ReadItems(rest[1..]) case None => None case Some((items, end)) => Some(([item] + items, end))
  }

  /** Quoted keys with their values, separated by commas, up to the closing brace. */
  function ReadMembers(e: string): (r: Option<(seq<(string, Json)>, string)>)
    ensures r.Some? ==> |r.value.1| < |e|
    decreases |e|, 1
  {
    if e == [] || e[0] != '\"' then None
    else
      match ReadString(e[1..])
      case None => None
      case Some((key, after)) =>
        if after == [] || after[0] != ':' then None
        else
          match ReadValue(after[1..])
          case None => None
          case Some((item, rest)) =>
            if rest == [] then None
            else if rest[0] == '}' then Some(([(key, item)], rest[1..]))
            else if rest[0] != ',' then None
            else
              match ReadMembers(rest[1..])
              case None => None
              case Some((members, end)) => Some(([(key, item)] + members, end))
  }

  // ----- the round trip

  predicate IsNumber(digits: string) {
    digits != "" && forall i :: 0 <= i < |digits| ==> NumberChar(digits[i])
  }

  /** All numbers in it are spelled with number characters. */
  predicate Spelled(v: Json) {
    match v
    case Number(digits) => IsNumber(digits)
    case List(items) => forall i :: 0 <= i < |items| ==> Spelled(items[i])
    case Object(members) => forall i :: 0 <= i < |members| ==> Spelled(members[i].1)
    case _ => true
  }

  /** Where a value ends: the text is over, or a separator or closing bracket follows. */
  predicate Ends(rest: string) {
    rest == [] || rest[0] in ",]}"
  }

  lemma EscapeStart(c: char)
    ensures Escape(c)[0] != '\"'
  {
  }

  lemma {:induction false} StringRoundTrip(s: string, rest: string)
    ensures ReadString(Escaped(s) + "\"" + rest) == Some((s, rest))
  {
    if s == [] {
      assert Escaped("") == "" && ("" + "\"" + rest)[1..] == rest;
    } else {
      var more := Escaped(s[1..]) + "\"" + rest;
      StringRoundTrip(s[1..], rest);
      ReadEscape(s[0], more);
      EscapeStart(s[0]);
      assert Escaped(s) + "\"" + rest == Escape(s[0]) + more;
      hide Escape, ReadOne;
      assert (Escape(s[0]) + more)[|Escape(s[0])|..] == more;
      assert s == [s[0]] + s[1..];
    }
  }

  lemma {:induction false} NumberRoundTrip(digits: string, rest: string)
    requires (forall i :: 0 <= i < |digits| ==> NumberChar(digits[i])) && Ends(rest)
    ensures NumberPart(digits + rest) == digits
  {
    if digits == [] {
      assert [] + rest == rest;
    } else {
      NumberRoundTrip(digits[1..], rest);
      assert (digits + rest)[1..] == digits[1..] + rest;
    }
  }

  lemma NumberValue(digits: string, rest: string)
    requires IsNumber(digits) && Ends(rest)
    ensures ReadValue(digits + rest) == Some((Number(digits), rest))
  {
    var e := digits + rest;
    NumberRoundTrip(digits, rest);
    assert e[0] == digits[0] && e[|digits|..] == rest;
    assert NumberChar(e[0]);
    StartAt(e, "null", 0);
    StartAt(e, "true", 0);
    StartAt(e, "false", 0);
  }

  lemma TextValue(text: string, rest: string)
    ensures ReadValue(Quoted(text) + rest) == Some((Text(text), rest))
  {
    StringRoundTrip(text, rest);
    hide Escaped, ReadString;
    var e := Quoted(text) + rest;
    assert e[0] == '\"' && e[1..] == Escaped(text) + "\"" + rest;
  }

  lemma WordValue(v: Json, rest: string)
    requires v.Null? || v.Boolean?
    ensures ReadValue(Serialize(v) + rest) == Some((v, rest))
  {
    var word := Serialize(v);
    var e := word + rest;
    assert e[..|word|] == word && e[|word|..] == rest;
    assert e[0] == word[0];
    StartAt(e, "null", 0);
    StartAt(e, "true", 0);
  }

  /** A serialized value never begins like the end of a list or an object. */
  lemma NotClosed(v: Json)
    requires Spelled(v)
    ensures Serialize(v) != [] && Serialize(v)[0] != ']' && Serialize(v)[0] != '}'
  {
  }

  lemma JoinedStep(parts: seq<string>)
    requires |parts| > 1
    ensures Joined(parts) == parts[0] + "," + Joined(parts[1..])
  {
  }

  lemma PartsStep(items: seq<Json>)
    requires items != []
    ensures |Parts(items)| == |items| && Parts(items)[0] == Serialize(items[0])
    ensures Parts(items)[1..] == Parts(items[1..])
  {
  }

  /** Reading a serialized value gives the value back and leaves what follows. */
  lemma {:induction false} ValueRoundTrip(v: Json, rest: string)
    requires Spelled(v) && Ends(rest)
    ensures ReadValue(Serialize(v) + rest) == Some((v, rest))
    decreases |Serialize(v)|, 0
  {
    match v
    case Null => WordValue(v, rest);
    case Boolean(_) => WordValue(v, rest);
    case Number(digits) => NumberValue(digits, rest);
    case Text(text) => TextValue(text, rest);
    case List(items) =>
      ListText(items);
      if items == [] {
        EmptyList(rest);
      } else {
        ItemsRoundTrip(items, rest);
        FullList(items, rest);
      }
    case Object(members) =>
      MembersText(members);
      if members == [] {
        EmptyObject(rest);
      } else {
        MembersRoundTrip(members, rest);
        FullObject(members, rest);
      }
  }

  lemma ListText(items: seq<Json>)
    ensures Serialize(List(items)) == "[" + Joined(Parts(items)) + "]"
  {
  }

  lemma EmptyList(rest: string)
    ensures Serialize(List([])) == "[]" && ReadValue("[]" + rest) == Some((List([]), rest))
  {
    var e := "[]" + rest;
    assert e[0] == '[' && e[..2] == "[]" && e[2..] == rest;
    ListText([]);
    assert Parts([]) == [];
  }

  lemma FullList(items: seq<Json>, rest: string)
    requires items != [] && Spelled(items[0])
    requires ReadItems(Joined(Parts(items)) + "]" + rest) == Some((items, rest))
    ensures ReadValue("[" + Joined(Parts(items)) + "]" + rest) == Some((List(items), rest))
  {
    var body := Joined(Parts(items)) + "]" + rest;
    var e := "[" + Joined(Parts(items)) + "]" + rest;
    assert e == "[" + body && e[0] == '[' && e[1..] == body;
    PartsStep(items);
    NotClosed(items[0]);
    hide Serialize, ReadItems;
    assert body[0] == Serialize(items[0])[0] by { JoinedHead(Parts(items)); }
    assert e[1] == body[0];
    StartAt(e, "[]", 1);
  }

  lemma JoinedHead(parts: seq<string>)
    requires parts != [] && parts[0] != []
    ensures Joined(parts) != [] && Joined(parts)[0] == parts[0][0]
  {
  }

  lemma {:induction false} ItemsRoundTrip(items: seq<Json>, rest: string)
    requires items != [] && forall i :: 0 <= i < |items| ==> Spelled(items[i])
    ensures ReadItems(Joined(Parts(items)) + "]" + rest) == Some((items, rest))
    decreases |Joined(Parts(items))|, 1
  {
    hide Serialize, ReadValue, ReadItems, Joined, Spelled, Parts;
    PartsStep(items);
    if |items| == 1 {
      OnePart(Parts(items));
      ValueRoundTrip(items[0], "]" + rest);
      LastItem(items[0], rest);
      assert items == [items[0]];
    } else {
      JoinedStep(Parts(items));
      var more := Joined(Parts(items[1..])) + "]" + rest;
      ValueRoundTrip(items[0], "," + more);
      ItemsRoundTrip(items[1..], rest);
      NextItem(items[0], more);
      assert Joined(Parts(items)) + "]" + rest == Serialize(items[0]) + ("," + more);
      assert items == [items[0]] + items[1..];
    }
  }

  lemma OnePart(parts: seq<string>)
    requires |parts| == 1
    ensures Joined(parts) == parts[0]
  {
  }

  lemma LastItem(v: Json, rest: string)
    requires ReadValue(Serialize(v) + ("]" + rest)) == Some((v, "]" + rest))
    ensures ReadItems(Serialize(v) + "]" + rest) == Some(([v], rest))
  {
    hide Serialize, ReadValue;
    assert Serialize(v) + "]" + rest == Serialize(v) + ("]" + rest) && ("]" + rest)[1..] == rest;
  }

  lemma NextItem(v: Json, more: string)
    requires ReadValue(Serialize(v) + ("," + more)) == Some((v, "," + more)) && ReadItems(more).Some?
    ensures ReadItems(Serialize(v) + ("," + more)) == Some(([v] + ReadItems(more).value.0, ReadItems(more).value.1))
  {
    hide Serialize, ReadValue;
    assert ("," + more)[1..] == more;
  }

  // ----- objects

  function MemberParts(members: seq<(string, Json)>): seq<string> {
    seq(|members|, i requires 0 <= i < |members| => Quoted(members[i].0) + ":" + Serialize(members[i].1))
  }

  lemma MembersText(members: seq<(string, Json)>)
    ensures Serialize(Object(members)) == "{" + Joined(MemberParts(members)) + "}"
  {
    ObjectText(members, MemberParts(members));
  }

  lemma MemberStep(members: seq<(string, Json)>)
    requires members != []
    ensures |MemberParts(members)| == |members| && MemberParts(members)[1..] == MemberParts(members[1..])
    ensures MemberParts(members)[0] == Quoted(members[0].0) + ":" + Serialize(members[0].1)
  {
  }

  lemma EmptyObject(rest: string)
    ensures Serialize(Object([])) == "{}" && ReadValue("{}" + rest) == Some((Object([]), rest))
  {
    var e := "{}" + rest;
    assert e[0] == '{' && e[..2] == "{}" && e[2..] == rest;
    MembersText([]);
    assert MemberParts([]) == [];
  }

  lemma FullObject(members: seq<(string, Json)>, rest: string)
    requires members != []
    requires ReadMembers(Joined(MemberParts(members)) + "}" + rest) == Some((members, rest))
    ensures ReadValue("{" + Joined(MemberParts(members)) + "}" + rest) == Some((Object(members), rest))
  {
    hide Serialize, ReadMembers;
    var body := Joined(MemberParts(members)) + "}" + rest;
    var e := "{" + Joined(MemberParts(members)) + "}" + rest;
    assert e == "{" + body && e[0] == '{' && e[1..] == body;
    MemberStep(members);
    assert MemberParts(members)[0][0] == '\"';
    JoinedHead(MemberParts(members));
    assert e[1] == body[0];
    StartAt(e, "{}", 1);
  }

  /** One member, then what follows it. */
  lemma ReadMember(key: string, v: Json, end: string)
    requires ReadValue(Serialize(v) + end) == Some((v, end)) && end != []
    ensures var e := Quoted(key) + ":" + Serialize(v) + end;
      && (end[0] == '}' ==> ReadMembers(e) == Some(([(key, v)], end[1..])))
      && (end[0] == ',' && ReadMembers(end[1..]).Some? ==>
            ReadMembers(e) == Some(([(key, v)] + ReadMembers(end[1..]).value.0, ReadMembers(end[1..]).value.1)))
  {
    hide Serialize, ReadValue, Escaped, ReadString;
    var e, after := Quoted(key) + ":" + Serialize(v) + end, ":" + (Serialize(v) + end);
    StringRoundTrip(key, after);
    assert e == "\"" + (Escaped(key) + "\"" + after);
    assert e[1..] == Escaped(key) + "\"" + after;
    assert after[1..] == Serialize(v) + end;
  }

  lemma {:induction false} MembersRoundTrip(members: seq<(string, Json)>, rest: string)
    requires members != [] && forall i :: 0 <= i < |members| ==> Spelled(members[i].1)
    ensures ReadMembers(Joined(MemberParts(members)) + "}" + rest) == Some((members, rest))
    decreases |Joined(MemberParts(members))|, 1
  {
    hide Serialize, ReadValue, ReadMembers, Quoted, Joined, Spelled, MemberParts;
    MemberStep(members);
    var key, v := members[0].0, members[0].1;
    if |members| == 1 {
      OnePart(MemberParts(members));
      ValueRoundTrip(members[0].1, "}" + rest);
      ReadMember(key, v, "}" + rest);
      assert Joined(MemberParts(members)) + "}" + rest == Quoted(key) + ":" + Serialize(v) + ("}" + rest);
      assert members == [(key, v)] && ("}" + rest)[1..] == rest;
    } else {
      var more := Joined(MemberParts(members[1..])) + "}" + rest;
      JoinedStep(MemberParts(members));
      ValueRoundTrip(members[0].1, "," + more);
      MembersRoundTrip(members[1..], rest);
      ReadMember(key, v, "," + more);
      assert Joined(MemberParts(members)) + "}" + rest == Quoted(key) + ":" + Serialize(v) + ("," + more);
      assert members == [(key, v)] + members[1..] && ("," + more)[1..] == more;
    }
  }

  /** Serializing loses nothing: a reader gets the whole value back, and equal texts come from equal values. */
  lemma RoundTrip(v: Json, w: Json)
    requires Spelled(v) && Spelled(w)
    ensures ReadValue(Serialize(v)) == Some((v, ""))
    ensures Serialize(v) == Serialize(w) ==> v == w
  {
    hide Serialize, ReadValue;
    ValueRoundTrip(v, "");
    ValueRoundTrip(w, "");
    assert Serialize(v) + "" == Serialize(v) && Serialize(w) + "" == Serialize(w);
  }
}
