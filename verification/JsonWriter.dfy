/** The bounded writer of port/mqtt/jsonw.c: it fills a buffer of `cap` bytes, keeps
    it terminated, and drops what does not fit. */
module JsonWriter {
  import opened Common
  import opened JsonText
  import JsonParse

  /** What is in the buffer is the longest beginning of the ideal text that leaves
      room for the terminator. */
  ghost predicate Holds(buf: seq<char>, len: nat, overflow: bool, ideal: string) {
    && (if |ideal| + 1 <= |buf| then len == |ideal| else len == if |buf| == 0 then 0 else |buf| - 1)
    && len <= |buf| && buf[..len] == ideal[..len]
    && (overflow <==> len < |ideal|)
    && (|buf| > 0 ==> buf[len] == '\0')
  }

  /** Write v in decimal: the digits from the last to the first, then reversed. */
  method U64ToStr(v: nat, out: array<char>) returns (ghost text: string)
    requires v < 0x1_0000_0000_0000_0000 && out.Length >= 22
    modifies out
    ensures text == NatText(v) && |text| <= 20 && out[..|text|] == text && out[|text|] == '\0'
  {
    var tmp := new char[21];
    var n, rest := 0, v;
    text := NatText(v);
    tmp[0] := '0' + (rest % 10) as char;
    n, rest := 1, rest / 10;
    DigitCount(v, 20);
    while rest != 0
      invariant 1 <= n <= |text|
      invariant rest == 0 <==> n == |text|
      invariant rest != 0 ==> NatText(rest) == text[..|text| - n]
      invariant forall k :: 0 <= k < n ==> tmp[k] == text[|text| - 1 - k]
      decreases rest
    {
      assert text[..|text| - n][..|text| - n - 1] == text[..|text| - n - 1];
      tmp[n] := '0' + (rest % 10) as char;
      n, rest := n + 1, rest / 10;
    }
    var o := 0;
    while n > 0
      invariant 0 <= n && o + n == |text|
      invariant forall k :: 0 <= k < |text| ==> tmp[k] == text[|text| - 1 - k]
      invariant out[..o] == text[..o]
    {
      n := n - 1;
      out[o] := tmp[n];
      o := o + 1;
    }
    out[o] := '\0';
  }

  lemma TenTo19()
    ensures Pow10(19) == 10_000_000_000_000_000_000
  {
    assert Pow10(2) == 100;
    assert Pow10(4) == 100 * Pow10(2);
    assert Pow10(6) == 100 * Pow10(4);
    assert Pow10(8) == 100 * Pow10(6);
    assert Pow10(10) == 100 * Pow10(8);
    assert Pow10(12) == 100 * Pow10(10);
    assert Pow10(14) == 100 * Pow10(12);
    assert Pow10(16) == 100 * Pow10(14);
    assert Pow10(18) == 100 * Pow10(16);
  }

  lemma {:induction false} DigitCount(v: nat, n: nat)
    requires n > 0 && (n < 20 ==> v < Pow10(n)) && (n >= 20 ==> v < 0x1_0000_0000_0000_0000)
    ensures |NatText(v)| <= n
  {
    if v >= 10 && n > 1 {
      TenTo19();
      DigitCount(v / 10, n - 1);
    }
  }

  lemma EscapeStep(before: string, s: string, i: nat)
    requires i < |s|
    ensures before + Escape(s[i..]) == (before + EscapeChar(s[i])) + Escape(s[i + 1..])
  {
    assert s[i..][1..] == s[i + 1..];
    Concat(before, EscapeChar(s[i]), Escape(s[i + 1..]));
  }

  lemma EscapeEnd(before: string, ideal: string, s: string)
    requires ideal + Escape(s[|s|..]) == before + ['"'] + Escape(s)
    ensures ideal + ['"'] == before + Quote(s)
  {
    NothingLeft(s);
    hide Escape;
    assert ideal + "" == ideal;
    Closes(before, ideal, Escape(s));
  }

  lemma NothingLeft(s: string)
    ensures Escape(s[|s|..]) == ""
  {
  }

  lemma Closes(before: string, ideal: string, e: string)
    requires ideal == before + ['"'] + e
    ensures ideal + ['"'] == before + (['"'] + e + ['"'])
  {
  }

  class Writer {
    const buf: array<char>
    var len: nat
    var overflow: bool
    var needComma: bool
    /** Everything that has been put, whether it fitted or not. */
    ghost var ideal: string

    ghost predicate Valid()
      reads this, buf
    {
      Holds(buf[..], len, overflow, ideal)
    }

    constructor (b: array<char>)
      modifies b
      ensures Valid() && buf == b && ideal == "" && !needComma
      ensures forall k :: 1 <= k < b.Length ==> b[k] == old(b[k])
    {
      buf := b;
      len, overflow, needComma, ideal := 0, false, false, "";
      new;
      if b.Length > 0 {
        b[0] := '\0';
      }
    }

    method PutC(c: char)
      requires Valid()
      modifies `len, `overflow, `ideal, buf
      ensures Valid() && ideal == old(ideal) + [c]
    {
      ghost var before := buf[..];
      if len + 1 < buf.Length {
        buf[len] := c;
        len := len + 1;
        buf[len] := '\0';
        assert buf[..len] == before[..len - 1] + [c];
      } else {
        overflow := true;
      }
      ideal := ideal + [c];
    }

    method PutS(s: string)
      requires Valid()
      modifies `len, `overflow, `ideal, buf
      ensures Valid() && ideal == old(ideal) + s
    {
      hide Holds;
      for i := 0 to |s|
        invariant Valid() && ideal == old(ideal) + s[..i]
      {
        PutC(s[i]);
        assert s[..i + 1] == s[..i] + [s[i]];
      }
      assert s[..|s|] == s;
    }

    method PutEscaped(s: string)
      requires Valid()
      modifies `len, `overflow, `ideal, buf
      ensures Valid() && ideal == old(ideal) + Quote(s)
    {
      hide Holds, Escape, EscapeChar;
      PutC('"');
      for i := 0 to |s|
        invariant Valid() && ideal + Escape(s[i..]) == old(ideal) + ['"'] + Escape(s)
      {
        EscapeStep(ideal, s, i);
        PutEscapedChar(s[i]);
      }
      EscapeEnd(old(ideal), ideal, s);
      PutC('"');
    }

    method PutEscapedChar(c: char)
      requires Valid()
      modifies `len, `overflow, `ideal, buf
      ensures Valid() && ideal == old(ideal) + EscapeChar(c)
    {
      hide Holds;
      if c == '"' || c == '\\' {
        PutC('\\');
        PutC(c);
      } else if c < ' ' {
        PutC(' ');
      } else {
        PutC(c);
      }
    }

    /** A comma where one is due. */
    method PutSep()
      requires Valid()
      modifies this, buf
      ensures Valid() && ideal == old(ideal) + Sep(old(needComma)) && needComma
    {
      hide Holds;
      if needComma {
        PutC(',');
      }
      needComma := true;
    }

    method PutKey(k: Option<string>)
      requires Valid()
      modifies this, buf
      ensures Valid() && ideal == old(ideal) + (Sep(old(needComma)) + Key(k)) && needComma
    {
      hide Holds, Quote;
      PutSep();
      if k.Some? {
        PutEscaped(k.value);
        PutC(':');
        assert ideal == old(ideal) + (Sep(old(needComma)) + (Quote(k.value) + [':']));
      }
    }

    /** What a call adds to the ideal text. */
    twostate predicate Emitted(c: Call)
      reads this, buf
    {
      && Valid() && needComma == Emit(old(needComma), c).comma
      && ideal == old(ideal) + Emit(old(needComma), c).text
    }

    method OpenObj()
      requires Valid()
      modifies this, buf
      ensures Emitted(Call.ObjOpen)
    {
      hide Holds;
      PutSep();
      PutC('{');
      needComma := false;
    }

    method CloseObj()
      requires Valid()
      modifies this, buf
      ensures Emitted(Call.ObjClose)
    {
      hide Holds;
      PutC('}');
      needComma := true;
    }

    method OpenArr(k: Option<string>)
      requires Valid()
      modifies this, buf
      ensures Emitted(Call.ArrOpen(k))
    {
      hide Holds, Key;
      PutKey(k);
      PutC('[');
      needComma := false;
    }

    method CloseArr()
      requires Valid()
      modifies this, buf
      ensures Emitted(Call.ArrClose)
    {
      hide Holds;
      PutC(']');
      needComma := true;
    }

    method WriteStr(k: Option<string>, v: string)
      requires Valid()
      modifies this, buf
      ensures Emitted(Call.PutStr(k, v))
    {
      hide Holds, Key, Quote;
      PutKey(k);
      PutEscaped(v);
    }

    method WriteI64(k: Option<string>, v: int)
      requires Valid() && -0x8000_0000_0000_0000 <= v < 0x8000_0000_0000_0000
      modifies this, buf
      ensures Emitted(Call.PutI64(k, v))
    {
      hide Holds, Key, NatText;
      PutKey(k);
      if v < 0 {
        PutC('-');
        assert 0 <= -(v + 1) < 0x8000_0000_0000_0000;
        PutNat(-(v + 1) + 1);
        assert ideal == old(ideal) + (Sep(old(needComma)) + Key(k) + (['-'] + NatText(-v)));
      } else {
        PutNat(v);
      }
    }

    method WriteU32(k: Option<string>, v: nat)
      requires Valid() && v < 0x1_0000_0000
      modifies this, buf
      ensures Emitted(Call.PutU32(k, v))
    {
      hide Holds, Key, NatText;
      PutKey(k);
      PutNat(v);
    }

    method PutNat(v: nat)
      requires Valid() && v < 0x1_0000_0000_0000_0000
      modifies `len, `overflow, `ideal, buf
      ensures Valid() && ideal == old(ideal) + NatText(v)
    {
      hide Holds, NatText;
      var num := new char[22];
      ghost var text := U64ToStr(v, num);
      var n := 0;
      while num[n] != '\0'
        invariant 0 <= n <= |text|
        decreases |text| - n
      {
        assert num[..|text|][n] == text[n];
        n := n + 1;
      }
      NatTextNotNul(v);
      assert n == |text|;
      PutS(num[..n]);
    }

    method WriteBool(k: Option<string>, v: bool)
      requires Valid()
      modifies this, buf
      ensures Emitted(Call.PutBool(k, v))
    {
      hide Holds, Key;
      PutKey(k);
      PutS(if v then "true" else "false");
    }
  }

  /** The numbers are in the range of their C types. */
  predicate InRange(c: Call) {
    && (c.PutI64? ==> -0x8000_0000_0000_0000 <= c.n < 0x8000_0000_0000_0000)
    && (c.PutU32? ==> c.u < 0x1_0000_0000)
  }

  /** Any sequence of calls: the buffer holds the longest beginning that fits of what
      the calls emit one after the other. */
  method Perform(w: Writer, calls: seq<Call>)
    requires w.Valid() && forall i :: 0 <= i < |calls| ==> InRange(calls[i])
    modifies w, w.buf
    ensures w.Valid() && w.ideal == old(w.ideal) + EmitAll(old(w.needComma), calls).text
    ensures w.needComma == EmitAll(old(w.needComma), calls).comma
  {
    hide Emit, Holds;
    for i := 0 to |calls|
      invariant w.Valid()
      invariant w.ideal + EmitAll(w.needComma, calls[i..]).text == old(w.ideal) + EmitAll(old(w.needComma), calls).text
      invariant EmitAll(w.needComma, calls[i..]).comma == EmitAll(old(w.needComma), calls).comma
    {
      ghost var comma, ideal := w.needComma, w.ideal;
      Dispatch(w, calls[i]);
      assert calls[i..][1..] == calls[i + 1..];
      assert ideal + (Emit(comma, calls[i]).text + EmitAll(w.needComma, calls[i + 1..]).text)
          == w.ideal + EmitAll(w.needComma, calls[i + 1..]).text;
    }
    assert calls[|calls|..] == [] && w.ideal + "" == w.ideal;
  }

  method Dispatch(w: Writer, c: Call)
    requires w.Valid() && InRange(c)
    modifies w, w.buf
    ensures w.Valid() && w.needComma == Emit(old(w.needComma), c).comma
    ensures w.ideal == old(w.ideal) + Emit(old(w.needComma), c).text
  {
    match c
    case ObjOpen => w.OpenObj();
    case ObjClose => w.CloseObj();
    case ArrOpen(k) => w.OpenArr(k);
    case ArrClose => w.CloseArr();
    case PutStr(k, v) => w.WriteStr(k, v);
    case PutI64(k, v) => w.WriteI64(k, v);
    case PutU32(k, v) => w.WriteU32(k, v);
    case PutBool(k, v) => w.WriteBool(k, v);
  }

  /** After the calls that write a tree, a buffer that was large enough holds JSON that
      means the tree; one that was not says so. */
  lemma OutputMeansTree(buf: seq<char>, len: nat, overflow: bool, j: Json)
    requires Writable(j) && Holds(buf, len, overflow, EmitAll(false, Calls(j, None)).text)
    ensures overflow <==> |buf| <= |Text(j)|
    ensures !overflow ==> JsonParse.Parse(buf[..len]) == Some(JsonParse.Clean(j))
    ensures overflow ==> buf[..len] < Text(j)
  {
    CallsWriteText(false, j, None);
    assert Sep(false) + Key(None) + Text(j) == Text(j);
    JsonParse.TextParses(j);
    JsonParse.TextBegins(j);
    hide Text, EmitAll, Calls, JsonParse.Parse;
    assert Text(j)[..|Text(j)|] == Text(j);
  }

  lemma {:induction false} NatTextNotNul(n: nat)
    ensures forall i :: 0 <= i < |NatText(n)| ==> NatText(n)[i] != '\0'
  {
    if n >= 10 { NatTextNotNul(n / 10); }
  }
}
