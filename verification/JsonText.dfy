/** The text that the calls of port/mqtt/jsonw.c should produce. Bytes are
    characters. */
module JsonText {
  import opened Common

  /** What can be written: an object has no name of its own, so it can stand in an
      array or at the top but not in an object. */
  datatype Json =
    | Str(s: string)
    | I64(n: int)
    | U32(u: nat)
    | Bool(b: bool)
    | Arr(items: Items)
    | Obj(members: Members)

  datatype Items = NoItem | Item(head: Json, tail: Items)
  datatype Members = NoMember | Member(name: string, value: Json, rest: Members)

  datatype Call =
    | ObjOpen
    | ObjClose
    | ArrOpen(key: Option<string>)
    | ArrClose
    | PutStr(key: Option<string>, s: string)
    | PutI64(key: Option<string>, n: int)
    | PutU32(key: Option<string>, u: nat)
    | PutBool(key: Option<string>, b: bool)

  // ----- Pieces of text ----------------------------------------------------

  function EscapeChar(c: char): string {
    if c == '"' || c == '\\' then ['\\', c] else if c < ' ' then [' '] else [c]
  }

  function Escape(s: string): string {
    if s == "" then "" else EscapeChar(s[0]) + Escape(s[1..])
  }

  function Quote(s: string): string {
    ['"'] + Escape(s) + ['"']
  }

  function NatText(n: nat): string {
    if n < 10 then [Digit(n)] else NatText(n / 10) + [Digit(n % 10)]
  }

  function IntText(n: int): string {
    if n < 0 then ['-'] + NatText(-n) else NatText(n)
  }

  function BoolText(b: bool): string {
    if b then "true" else "false"
  }

  function Sep(comma: bool): string {
    if comma then [','] else ""
  }

  function Key(key: Option<string>): string {
    match key
    case None => ""
    case Some(k) => Quote(k) + [':']
  }

  // ----- What a call emits -------------------------------------------------

  datatype Out = Out(text: string, comma: bool)

  /** The text of one call and the comma flag after it. */
  function Emit(comma: bool, c: Call): Out {
    match c
    case ObjOpen => Out(Sep(comma) + ['{'], false)
    case ObjClose => Out(['}'], true)
    case ArrOpen(key) => Out(Sep(comma) + Key(key) + ['['], false)
    case ArrClose => Out([']'], true)
    case PutStr(key, s) => Out(Sep(comma) + Key(key) + Quote(s), true)
    case PutI64(key, n) => Out(Sep(comma) + Key(key) + IntText(n), true)
    case PutU32(key, u) => Out(Sep(comma) + Key(key) + NatText(u), true)
    case PutBool(key, b) => Out(Sep(comma) + Key(key) + BoolText(b), true)
  }

  function EmitAll(comma: bool, calls: seq<Call>): Out
    decreases |calls|
  {
    if calls == [] then Out("", comma)
    else
      var first := Emit(comma, calls[0]);
      var rest := EmitAll(first.comma, calls[1..]);
      Out(first.text + rest.text, rest.comma)
  }

  // ----- The ideal text ----------------------------------------------------

  function Text(j: Json): string {
    match j
    case Str(s) => Quote(s)
    case I64(n) => IntText(n)
    case U32(u) => NatText(u)
    case Bool(b) => BoolText(b)
    case Arr(items) => ['['] + ItemsText(items) + [']']
    case Obj(members) => ['{'] + MembersText(members) + ['}']
  }

  function ItemsText(items: Items): string {
    match items
    case NoItem => ""
    case Item(head, tail) => if tail.NoItem? then Text(head) else Text(head) + [','] + ItemsText(tail)
  }

  function MembersText(members: Members): string {
    match members
    case NoMember => ""
    case Member(name, value, rest) =>
      var one := Key(Some(name)) + Text(value);
      if rest.NoMember? then one else one + [','] + MembersText(rest)
  }

  // ----- The calls that write a tree ---------------------------------------

  predicate Writable(j: Json) {
    match j
    case Arr(items) => WritableItems(items)
    case Obj(members) => WritableMembers(members)
    case _ => true
  }

  predicate WritableItems(items: Items) {
    items.Item? ==> Writable(items.head) && WritableItems(items.tail)
  }

  predicate WritableMembers(members: Members) {
    members.Member? ==> !members.value.Obj? && Writable(members.value) && WritableMembers(members.rest)
  }

  function Calls(j: Json, key: Option<string>): seq<Call> {
    match j
    case Str(s) => [PutStr(key, s)]
    case I64(n) => [PutI64(key, n)]
    case U32(u) => [PutU32(key, u)]
    case Bool(b) => [PutBool(key, b)]
    case Arr(items) => [ArrOpen(key)] + ItemsCalls(items) + [ArrClose]
    case Obj(members) => [ObjOpen] + MembersCalls(members) + [ObjClose]
  }

  function ItemsCalls(items: Items): seq<Call> {
    match items
    case NoItem => []
    case Item(head, tail) => Calls(head, None) + ItemsCalls(tail)
  }

  function MembersCalls(members: Members): seq<Call> {
    match members
    case NoMember => []
    case Member(name, value, rest) => Calls(value, Some(name)) + MembersCalls(rest)
  }

  lemma {:induction false} EmitAppend(comma: bool, a: seq<Call>, b: seq<Call>)
    ensures var x := EmitAll(comma, a);
            var y := EmitAll(x.comma, b);
            EmitAll(comma, a + b) == Out(x.text + y.text, y.comma)
    decreases |a|
  {
    if a == [] {
      assert a + b == b;
      assert "" + EmitAll(comma, b).text == EmitAll(comma, b).text;
    } else {
      hide Emit, EmitAll;
      assert (a + b)[1..] == a[1..] + b && (a + b)[0] == a[0];
      var first := Emit(comma, a[0]);
      EmitFirst(comma, a);
      EmitFirst(comma, a + b);
      EmitAppend(first.comma, a[1..], b);
      var x := EmitAll(first.comma, a[1..]);
      Concat(first.text, x.text, EmitAll(x.comma, b).text);
    }
  }

  lemma EmitFirst(comma: bool, calls: seq<Call>)
    requires calls != []
    ensures var first := Emit(comma, calls[0]);
            var rest := EmitAll(first.comma, calls[1..]);
            EmitAll(comma, calls) == Out(first.text + rest.text, rest.comma)
  {
    hide Emit;
  }

  lemma Concat(a: string, b: string, c: string)
    ensures a + (b + c) == (a + b) + c
  {
  }

  lemma EmitOne(comma: bool, c: Call)
    ensures EmitAll(comma, [c]) == Emit(comma, c)
  {
    hide Emit;
    assert [c][1..] == [];
    assert Emit(comma, c).text + "" == Emit(comma, c).text;
  }

  /** An opening call, what is inside, and a closing call. */
  lemma EmitBracket(comma: bool, open: Call, inside: seq<Call>, close: Call, text: string)
    requires EmitAll(Emit(comma, open).comma, inside).text == text
    requires close.ObjClose? || close.ArrClose?
    ensures EmitAll(comma, [open] + inside + [close])
            == Out(Emit(comma, open).text + text + [if close.ObjClose? then '}' else ']'], true)
  {
    EmitOne(comma, open);
    EmitOne(EmitAll(Emit(comma, open).comma, inside).comma, close);
    EmitAppend(comma, [open], inside);
    EmitAppend(comma, [open] + inside, [close]);
  }

  /** With its flag for commas the writer emits the ideal text of every tree,
      behind a comma and the key where these belong. */
  lemma {:induction false} CallsWriteText(comma: bool, j: Json, key: Option<string>)
    requires Writable(j) && (j.Obj? ==> key.None?)
    ensures EmitAll(comma, Calls(j, key)) == Out(Sep(comma) + Key(key) + Text(j), true)
    decreases j
  {
    match j
    case Arr(items) =>
      ItemsWriteText(false, items);
      ArrWritesText(comma, items, key);
    case Obj(members) =>
      MembersWriteText(false, members);
      ObjWritesText(comma, members);
    case _ =>
      hide Quote, NatText, IntText, BoolText, Sep;
      EmitOne(comma, Calls(j, key)[0]);
  }

  lemma ArrWritesText(comma: bool, items: Items, key: Option<string>)
    requires var out := EmitAll(false, ItemsCalls(items));
             out == if items.NoItem? then Out("", false) else Out(Sep(false) + ItemsText(items), true)
    ensures EmitAll(comma, Calls(Arr(items), key)) == Out(Sep(comma) + Key(key) + Text(Arr(items)), true)
  {
    hide EmitAll, Key, ItemsText, ItemsCalls;
    Empty(ItemsText(items));
    NoItemText(items);
    EmitBracket(comma, ArrOpen(key), ItemsCalls(items), ArrClose, ItemsText(items));
    Glue(Sep(comma) + Key(key), '[', ItemsText(items), ']');
  }

  lemma NoItemText(items: Items)
    ensures items.NoItem? ==> ItemsText(items) == ""
  {
  }

  lemma NoMemberText(members: Members)
    ensures members.NoMember? ==> MembersText(members) == ""
  {
  }

  lemma Empty(t: string)
    ensures Sep(false) + t == t
  {
  }

  lemma Glue(before: string, open: char, t: string, close: char)
    ensures before + ([open] + t + [close]) == before + [open] + t + [close]
  {
  }

  lemma ObjWritesText(comma: bool, members: Members)
    requires var out := EmitAll(false, MembersCalls(members));
             out == if members.NoMember? then Out("", false) else Out(Sep(false) + MembersText(members), true)
    ensures EmitAll(comma, Calls(Obj(members), None)) == Out(Sep(comma) + Key(None) + Text(Obj(members)), true)
  {
    hide EmitAll, MembersText, MembersCalls;
    Empty(MembersText(members));
    NoMemberText(members);
    EmitBracket(comma, ObjOpen, MembersCalls(members), ObjClose, MembersText(members));
    assert Sep(comma) + Key(None) == Sep(comma);
    Glue(Sep(comma), '{', MembersText(members), '}');
  }

  lemma {:induction false} ItemsWriteText(comma: bool, items: Items)
    requires WritableItems(items)
    ensures var out := EmitAll(comma, ItemsCalls(items));
            out == if items.NoItem? then Out("", comma) else Out(Sep(comma) + ItemsText(items), true)
    decreases items
  {
    hide Quote, Calls, Emit, Text;
    if items.Item? {
      CallsWriteText(comma, items.head, None);
      ItemsWriteText(true, items.tail);
      EmitAppend(comma, Calls(items.head, None), ItemsCalls(items.tail));
      var t := Text(items.head);
      assert Sep(comma) + "" + t == Sep(comma) + t;
      if items.tail.Item? {
        assert Sep(comma) + t + (Sep(true) + ItemsText(items.tail)) == Sep(comma) + (t + [','] + ItemsText(items.tail));
      } else {
        assert Sep(comma) + t + "" == Sep(comma) + t;
      }
    }
  }

  lemma {:induction false} MembersWriteText(comma: bool, members: Members)
    requires WritableMembers(members)
    ensures var out := EmitAll(comma, MembersCalls(members));
            out == if members.NoMember? then Out("", comma) else Out(Sep(comma) + MembersText(members), true)
    decreases members
  {
    hide Quote, Calls, Emit, Text;
    if members.Member? {
      var key := Some(members.name);
      CallsWriteText(comma, members.value, key);
      MembersWriteText(true, members.rest);
      EmitAppend(comma, Calls(members.value, key), MembersCalls(members.rest));
      var t := Key(key) + Text(members.value);
      assert Sep(comma) + Key(key) + Text(members.value) == Sep(comma) + t;
      if members.rest.Member? {
        assert Sep(comma) + t + (Sep(true) + MembersText(members.rest))
                 == Sep(comma) + (t + [','] + MembersText(members.rest));
      } else {
        assert Sep(comma) + t + "" == Sep(comma) + t;
      }
    }
  }
}
