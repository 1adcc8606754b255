/** A parser for sections 2 to 7 of RFC 8259, for texts without null, \u escapes,
    fractions and exponents, none of which the writer can produce; and what it
    makes of the writer's text. */
module JsonParse {
  import opened Common
  import opened JsonText

  datatype Parsed<T> = Fail | Got(value: T, rest: string)

  predicate IsWs(c: char) { c == ' ' || c == '\t' || c == '\n' || c == '\r' }

  predicate IsDigit(c: char) { '0' <= c <= '9' }

  function SkipWs(t: string): (r: string)
    ensures |r| <= |t|
  {
    if t != "" && IsWs(t[0]) then SkipWs(t[1..]) else t
  }

  /** The characters up to the closing quotation mark. */
  function ParseChars(t: string): (r: Parsed<string>)
    ensures r.Got? ==> |r.rest| < |t|
  {
    if t == "" then Fail
    else if t[0] == '"' then Got("", t[1..])
    else if t[0] == '\\' then
      if |t| < 2 || Unescape(t[1]).None? then Fail
      else
        var more := ParseChars(t[2..]);
        if more.Fail? then Fail else Got([Unescape(t[1]).value] + more.value, more.rest)
    else if t[0] < ' ' then Fail
    else
      var more := ParseChars(t[1..]);
      if more.Fail? then Fail else Got([t[0]] + more.value, more.rest)
  }

  function Unescape(c: char): Option<char> {
    if c == '"' || c == '\\' || c == '/' then Some(c)
    else if c == 'b' then Some(8 as char) else if c == 'f' then Some(12 as char)
    else if c == 'n' then Some('\n') else if c == 'r' then Some('\r') else if c == 't' then Some('\t')
    else None
  }

  function ParseDigits(t: string, acc: nat): (r: (nat, string))
    ensures |r.1| <= |t|
  {
    if t != "" && IsDigit(t[0]) then ParseDigits(t[1..], acc * 10 + (t[0] - '0') as nat) else (acc, t)
  }

  /** A natural number without leading zeros. */
  function ParseNat(t: string): (r: Parsed<nat>)
    ensures r.Got? ==> |r.rest| < |t|
  {
    if t == "" || !IsDigit(t[0]) then Fail
    else if t[0] == '0' then Got(0, t[1..])
    else var d := ParseDigits(t[1..], (t[0] - '0') as nat); Got(d.0, d.1)
  }

  function ParseInt(t: string): (r: Parsed<int>)
    ensures r.Got? ==> |r.rest| < |t|
  {
    var n := ParseNat(if t != "" && t[0] == '-' then t[1..] else t);
    if n.Fail? || (n.rest != "" && (n.rest[0] == '.' || n.rest[0] == 'e' || n.rest[0] == 'E')) then Fail
    else Got(if t != "" && t[0] == '-' then 0 - n.value else n.value, n.rest)
  }

  function ParseValue(t: string): (r: Parsed<Json>)
    ensures r.Got? ==> |r.rest| < |t|
    decreases |t|, 0
  {
    var u := SkipWs(t);
    if u == "" then Fail
    else if u[0] == '"' then
      var s := ParseChars(u[1..]);
      if s.Fail? then Fail else Got(Str(s.value), s.rest)
    else if u[0] == '[' then
      var v := SkipWs(u[1..]);
      if v != "" && v[0] == ']' then Got(Arr(NoItem), v[1..])
      else var items := ParseItems(v); if items.Fail? then Fail else Got(Arr(items.value), items.rest)
    else if u[0] == '{' then
      var v := SkipWs(u[1..]);
      if v != "" && v[0] == '}' then Got(Obj(NoMember), v[1..])
      else var ms := ParseMembers(v); if ms.Fail? then Fail else Got(Obj(ms.value), ms.rest)
    else if u[0] == 't' then if "true" <= u then Got(Bool(true), u[4..]) else Fail
    else if u[0] == 'f' then if "false" <= u then Got(Bool(false), u[5..]) else Fail
    else var n := ParseInt(u); if n.Fail? then Fail else Got(I64(n.value), n.rest)
  }

  /** One or more values, and the closing bracket. */
  function ParseItems(t: string): (r: Parsed<Items>)
    ensures r.Got? ==> |r.rest| < |t|
    decreases |t|, 1
  {
    var head := ParseValue(t);
    if head.Fail? then Fail
    else
      var u := SkipWs(head.rest);
      if u == "" then Fail
      else if u[0] == ']' then Got(Item(head.value, NoItem), u[1..])
      else if u[0] == ',' then
        var tail := ParseItems(u[1..]);
        if tail.Fail? then Fail else Got(Item(head.value, tail.value), tail.rest)
      else Fail
  }

  /** One or more members, and the closing brace. */
  function ParseMembers(t: string): (r: Parsed<Members>)
    ensures r.Got? ==> |r.rest| < |t|
    decreases |t|, 1
  {
    var s := SkipWs(t);
    if s == "" || s[0] != '"' then Fail
    else
      var name := ParseChars(s[1..]);
      if name.Fail? then Fail
      else
        var colon := SkipWs(name.rest);
        if colon == "" || colon[0] != ':' then Fail
        else
          var value := ParseValue(colon[1..]);
          if value.Fail? then Fail
          else
            var u := SkipWs(value.rest);
            if u == "" then Fail
            else if u[0] == '}' then Got(Member(name.value, value.value, NoMember), u[1..])
            else if u[0] == ',' then
              var more := ParseMembers(u[1..]);
              if more.Fail? then Fail else Got(Member(name.value, value.value, more.value), more.rest)
            else Fail
  }

  /** A whole text. */
  function Parse(t: string): Option<Json> {
    var v := ParseValue(t);
    if v.Got? && SkipWs(v.rest) == "" then Some(v.value) else None
  }

  // ----- What is read back -------------------------------------------------

  function CleanChar(c: char): char {
    if c < ' ' then ' ' else c
  }

  function CleanString(s: string): string {
    if s == "" then "" else [CleanChar(s[0])] + CleanString(s[1..])
  }

  /** The tree with control characters as spaces. */
  function Clean(j: Json): Json {
    match j
    case Str(s) => Str(CleanString(s))
    case U32(u) => I64(u)
    case Arr(items) => Arr(CleanItems(items))
    case Obj(members) => Obj(CleanMembers(members))
    case _ => j
  }

  function CleanItems(items: Items): Items {
    if items.NoItem? then items else Item(Clean(items.head), CleanItems(items.tail))
  }

  function CleanMembers(members: Members): Members {
    if members.NoMember? then members
    else Member(CleanString(members.name), Clean(members.value), CleanMembers(members.rest))
  }

  // ----- The round trip ----------------------------------------------------

  /** Reading one written character. */
  lemma CharRoundTrip(c: char, more: string)
    ensures var r := ParseChars(more);
            ParseChars(EscapeChar(c) + more) == if r.Fail? then Fail else Got([CleanChar(c)] + r.value, r.rest)
  {
    var t := EscapeChar(c) + more;
    if c == '"' || c == '\\' {
      assert t[2..] == more;
    } else {
      assert t[1..] == more;
    }
  }

  lemma CloseRoundTrip(rest: string)
    ensures ParseChars(['"'] + rest) == Got("", rest)
  {
    assert (['"'] + rest)[1..] == rest;
  }

  lemma {:induction false} CharsRoundTrip(s: string, rest: string)
    ensures ParseChars(Escape(s) + (['"'] + rest)) == Got(CleanString(s), rest)
  {
    hide ParseChars, EscapeChar, CleanChar;
    var tail := ['"'] + rest;
    if s == "" {
      assert Escape(s) + tail == tail;
      CloseRoundTrip(rest);
    } else {
      CharsRoundTrip(s[1..], rest);
      CharRoundTrip(s[0], Escape(s[1..]) + tail);
      assert Escape(s) + tail == EscapeChar(s[0]) + (Escape(s[1..]) + tail);
    }
  }

  lemma {:induction false} DigitsRoundTrip(n: nat, rest: string)
    ensures ParseDigits(NatText(n) + rest, 0) == ParseDigits(rest, n)
  {
    if n < 10 {
      var t := NatText(n) + rest;
      assert t[0] == Digit(n) && t[1..] == rest;
    } else {
      var tail := [Digit(n % 10)] + rest;
      assert NatText(n) + rest == NatText(n / 10) + tail;
      DigitsRoundTrip(n / 10, tail);
      assert tail[1..] == rest;
    }
  }

  /** What may follow a value. */
  predicate Ends(rest: string) {
    rest == "" || rest[0] == ',' || rest[0] == ']' || rest[0] == '}'
  }

  lemma {:induction false} NatTextBegins(n: nat)
    ensures NatText(n) != "" && IsDigit(NatText(n)[0]) && (n > 0 ==> NatText(n)[0] != '0')
            && (n == 0 ==> NatText(n) == ['0'])
  {
    if n >= 10 { NatTextBegins(n / 10); }
  }

  lemma NatRoundTrip(n: nat, rest: string)
    requires Ends(rest)
    ensures ParseNat(NatText(n) + rest) == Got(n, rest)
  {
    NatTextBegins(n);
    DigitsRoundTrip(n, rest);
    var t := NatText(n) + rest;
    if n == 0 { assert t[1..] == rest; }
  }

  lemma ParseSigned(t: string, n: nat, rest: string)
    requires ParseNat(t) == Got(n, rest) && Ends(rest)
    ensures ParseInt(['-'] + t) == Got(0 - n, rest)
    ensures t != "" && t[0] != '-' && ParseInt(t) == Got(n, rest)
  {
    var u := ['-'] + t;
    assert u[1..] == t;
  }

  lemma IntRoundTrip(n: int, rest: string)
    requires Ends(rest)
    ensures ParseInt(IntText(n) + rest) == Got(n, rest)
  {
    hide NatText, ParseNat, ParseInt;
    var m := if n < 0 then -n else n;
    NatRoundTrip(m, rest);
    ParseSigned(NatText(m) + rest, m, rest);
    if n < 0 { assert IntText(n) + rest == ['-'] + (NatText(m) + rest); }
  }

  lemma NoWs(t: string)
    requires t == "" || !IsWs(t[0])
    ensures SkipWs(t) == t
  {
  }

  /** How the text of a value begins. */
  lemma TextBegins(j: Json)
    ensures Text(j) != "" && !IsWs(Text(j)[0]) && Text(j)[0] != ']' && Text(j)[0] != '}'
  {
    match j
    case I64(n) => NatTextBegins(if n < 0 then -n else n);
    case U32(u) => NatTextBegins(u);
    case _ =>
  }

  lemma StrRoundTrip(s: string, rest: string)
    ensures ParseValue(Quote(s) + rest) == Got(Str(CleanString(s)), rest)
  {
    var t := Quote(s) + rest;
    CharsRoundTrip(s, rest);
    hide Escape, ParseChars, CleanString;
    NoWs(t);
    assert t[1..] == Escape(s) + (['"'] + rest);
  }

  lemma NumberRoundTrip(n: int, rest: string)
    requires Ends(rest)
    ensures ParseValue(IntText(n) + rest) == Got(I64(n), rest)
  {
    IntRoundTrip(n, rest);
    TextBegins(I64(n));
    NatTextBegins(if n < 0 then -n else n);
    hide ParseInt, NatText;
    var t := IntText(n) + rest;
    assert t[0] == IntText(n)[0];
    NoWs(t);
  }

  lemma BoolRoundTrip(b: bool, rest: string)
    ensures ParseValue(BoolText(b) + rest) == Got(Bool(b), rest)
  {
    var t := BoolText(b) + rest;
    NoWs(t);
    assert t[|BoolText(b)|..] == rest;
    assert BoolText(b) <= t;
  }

  lemma ParseArr(u: string)
    requires u != "" && !IsWs(u[0])
    ensures ParseValue(['['] + u)
            == if u[0] == ']' then Got(Arr(NoItem), u[1..])
               else var items := ParseItems(u); if items.Fail? then Fail else Got(Arr(items.value), items.rest)
  {
    hide ParseItems;
    var t := ['['] + u;
    NoWs(t);
    NoWs(u);
    assert t[1..] == u;
  }

  lemma ParseObj(u: string)
    requires u != "" && !IsWs(u[0])
    ensures ParseValue(['{'] + u)
            == if u[0] == '}' then Got(Obj(NoMember), u[1..])
               else var ms := ParseMembers(u); if ms.Fail? then Fail else Got(Obj(ms.value), ms.rest)
  {
    hide ParseMembers;
    var t := ['{'] + u;
    NoWs(t);
    NoWs(u);
    assert t[1..] == u;
  }

  lemma Reopen(open: char, t: string, close: char, rest: string)
    ensures [open] + t + [close] + rest == [open] + (t + ([close] + rest))
    ensures t + ([close] + rest) != "" && (t + ([close] + rest))[0] == if t == "" then close else t[0]
    ensures t == "" ==> (t + ([close] + rest))[1..] == rest
  {
  }

  lemma ArrRoundTrip(items: Items, rest: string)
    requires items.Item? ==> ParseItems(ItemsText(items) + ([']'] + rest)) == Got(CleanItems(items), rest)
    ensures ParseValue(Text(Arr(items)) + rest) == Got(Arr(CleanItems(items)), rest)
  {
    if items.Item? { ItemsBegin(items); } else { NoItemText(items); }
    assert items.NoItem? ==> CleanItems(items) == NoItem;
    hide ParseValue, ParseItems, ItemsText, CleanItems;
    Reopen('[', ItemsText(items), ']', rest);
    ParseArr(ItemsText(items) + ([']'] + rest));
  }

  lemma ItemsBegin(items: Items)
    requires items.Item?
    ensures ItemsText(items) != "" && !IsWs(ItemsText(items)[0]) && ItemsText(items)[0] != ']'
  {
    TextBegins(items.head);
  }

  lemma ObjRoundTrip(members: Members, rest: string)
    requires members.Member? ==> ParseMembers(MembersText(members) + (['}'] + rest)) == Got(CleanMembers(members), rest)
    ensures ParseValue(Text(Obj(members)) + rest) == Got(Obj(CleanMembers(members)), rest)
  {
    if members.Member? { MembersBegin(members); } else { NoMemberText(members); }
    assert members.NoMember? ==> CleanMembers(members) == NoMember;
    hide ParseValue, ParseMembers, MembersText, CleanMembers;
    Reopen('{', MembersText(members), '}', rest);
    ParseObj(MembersText(members) + (['}'] + rest));
  }

  lemma MembersBegin(members: Members)
    requires members.Member?
    ensures MembersText(members) != "" && MembersText(members)[0] == '"'
  {
  }

  /** Reading the text of a value gives the value, whatever follows it. */
  lemma {:induction false} ValueRoundTrip(j: Json, rest: string)
    requires Ends(rest)
    ensures ParseValue(Text(j) + rest) == Got(Clean(j), rest)
    decreases j
  {
    hide ParseValue;
    match j
    case Str(s) => StrRoundTrip(s, rest);
    case I64(n) => NumberRoundTrip(n, rest);
    case U32(u) => NumberRoundTrip(u, rest); assert IntText(u) == NatText(u);
    case Bool(b) => BoolRoundTrip(b, rest);
    case Arr(items) =>
      if items.Item? { ItemsRoundTrip(items, rest); }
      ArrRoundTrip(items, rest);
    case Obj(members) =>
      if members.Member? { MembersRoundTrip(members, rest); }
      ObjRoundTrip(members, rest);
  }

  lemma {:induction false} ItemsRoundTrip(items: Items, rest: string)
    requires items.Item?
    ensures ParseItems(ItemsText(items) + ([']'] + rest)) == Got(CleanItems(items), rest)
    decreases items
  {
    var close := [']'] + rest;
    var more := if items.tail.NoItem? then close else [','] + (ItemsText(items.tail) + close);
    assert ItemsText(items) + close == Text(items.head) + more;
    ValueRoundTrip(items.head, more);
    NoWs(more);
    if items.tail.Item? {
      ItemsRoundTrip(items.tail, rest);
      assert more[1..] == ItemsText(items.tail) + close;
    } else {
      assert more[1..] == rest;
    }
    hide ParseValue, ItemsText, Text, Clean;
  }

  lemma {:induction false} MembersRoundTrip(members: Members, rest: string)
    requires members.Member?
    ensures ParseMembers(MembersText(members) + (['}'] + rest)) == Got(CleanMembers(members), rest)
    decreases members
  {
    var close := ['}'] + rest;
    var more := if members.rest.NoMember? then close else [','] + (MembersText(members.rest) + close);
    ValueRoundTrip(members.value, more);
    if members.rest.Member? { MembersRoundTrip(members.rest, rest); }
    MemberRoundTrip(members, rest, close, more);
  }

  lemma MemberRoundTrip(members: Members, rest: string, close: string, more: string)
    requires members.Member? && close == ['}'] + rest
    requires more == if members.rest.NoMember? then close else [','] + (MembersText(members.rest) + close)
    requires ParseValue(Text(members.value) + more) == Got(Clean(members.value), more)
    requires members.rest.Member? ==>
               ParseMembers(MembersText(members.rest) + close) == Got(CleanMembers(members.rest), rest)
    ensures ParseMembers(MembersText(members) + close) == Got(CleanMembers(members), rest)
  {
    var value := Text(members.value) + more;
    var chars := Escape(members.name) + (['"'] + ([':'] + value));
    MemberShape(members, close, more, value, chars);
    CharsRoundTrip(members.name, [':'] + value);
    var rest' := if members.rest.NoMember? then rest else MembersText(members.rest) + close;
    assert more[1..] == rest';
    ParseOne(chars, CleanString(members.name), value, Clean(members.value), more);
    assert more[0] == if members.rest.NoMember? then '}' else ',';
    hide ParseMembers, Escape, Text, Clean, CleanString, MembersText, SkipWs;
  }

  lemma MemberShape(members: Members, close: string, more: string, value: string, chars: string)
    requires members.Member? && value == Text(members.value) + more
    requires more == if members.rest.NoMember? then close else [','] + (MembersText(members.rest) + close)
    requires chars == Escape(members.name) + (['"'] + ([':'] + value))
    ensures MembersText(members) + close == ['"'] + chars
  {
    hide Escape, Text;
  }

  /** Reading one member and the character behind it. */
  lemma ParseOne(chars: string, name: string, value: string, v: Json, more: string)
    requires ParseChars(chars) == Got(name, [':'] + value) && ParseValue(value) == Got(v, more)
    requires more != "" && (more[0] == '}' || more[0] == ',')
    ensures ParseMembers(['"'] + chars)
            == if more[0] == '}' then Got(Member(name, v, NoMember), more[1..])
               else
                 var tail := ParseMembers(more[1..]);
                 if tail.Fail? then Fail else Got(Member(name, v, tail.value), tail.rest)
  {
    hide ParseValue, ParseChars;
    var t, colon := ['"'] + chars, [':'] + value;
    NoWs(t);
    NoWs(colon);
    NoWs(more);
    assert t[1..] == chars && colon[1..] == value;
  }

  /** The text of every tree is JSON, and means that tree. */
  lemma TextParses(j: Json)
    ensures Parse(Text(j)) == Some(Clean(j))
  {
    ValueRoundTrip(j, "");
    assert Text(j) + "" == Text(j);
  }
}
