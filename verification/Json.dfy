/** JSON text (RFC 8259, sections 4 to 7): the compact printer used for canonical Soul Wire content, and a
    reader that also takes any white space, member order and string escape.

    Negative, fractional and exponent numbers are refused by the reader: every number of the protocol is an
    unsigned integer, so such a text is malformed for it either way. */
module Json {
  import opened Wrappers
  import opened Decimal
  import Hex

  datatype Json =
    | Null
    | Bool(b: bool)
    | Num(n: nat)
    | Str(s: string)
    | Arr(items: seq<Json>)
    | Obj(members: seq<Member>)
  datatype Member = Member(key: string, value: Json)

  // ---- printing ----------------------------------------------------------

  function EscapeChar(c: char): (e: string)
    ensures e != []
  {
    if c == '\"' then ['\\', '\"']
    else if c == '\\' then ['\\', '\\']
    else if c == '\U{8}' then ['\\', 'b']
    else if c == '\U{c}' then ['\\', 'f']
    else if c == '\n' then ['\\', 'n']
    else if c == '\r' then ['\\', 'r']
    else if c == '\t' then ['\\', 't']
    else if c < ' ' then ['\\', 'u', '0', '0', Hex.Digit(c as int / 16), Hex.Digit(c as int % 16)]
    else [c]
  }

  function Escape(s: string): string {
    if s == [] then [] else EscapeChar(s[0]) + Escape(s[1..])
  }

  function Print(j: Json): (t: string)
    ensures t != []
  {
    match j
    case Null => "null"
    case Bool(b) => if b then "true" else "false"
    case Num(n) => Dec(n)
    case Str(s) => "\"" + Escape(s) + "\""
    case Arr(items) => "[" + PrintItems(items) + "]"
    case Obj(members) => "{" + PrintMembers(members) + "}"
  }

  function PrintItems(items: seq<Json>): string {
    if items == [] then []
    else if |items| == 1 then Print(items[0])
    else Print(items[0]) + "," + PrintItems(items[1..])
  }

  function PrintMember(m: Member): string {
    "\"" + Escape(m.key) + "\":" + Print(m.value)
  }

  function PrintMembers(members: seq<Member>): string {
    if members == [] then []
    else if |members| == 1 then PrintMember(members[0])
    else PrintMember(members[0]) + "," + PrintMembers(members[1..])
  }

  // ---- reading -----------------------------------------------------------

  predicate IsSpace(c: char) {
    c == ' ' || c == '\t' || c == '\n' || c == '\r'
  }

  function SkipSpace(t: string): (r: string)
    ensures |r| <= |t|
    ensures t != [] && !IsSpace(t[0]) ==> r == t
  {
    if t != [] && IsSpace(t[0]) then SkipSpace(t[1..]) else t
  }

  function Nibble(c: char): Option<nat> {
    if Hex.IsHexDigit(c) then Some(Hex.DigitValue(c))
    else if 'A' <= c <= 'F' then Some(c as int - 'A' as int + 10)
    else None
  }

  /** Four hex digits at the start of a text. */
  function Unit(t: string): (r: Option<nat>)
    ensures r.Some? ==> |t| >= 4 && r.value < 0x10000
  {
    if |t| < 4 then None
    else
      match (Nibble(t[0]), Nibble(t[1]), Nibble(t[2]), Nibble(t[3]))
      case (Some(a), Some(b), Some(c), Some(d)) =>
        if a < 16 && b < 16 && c < 16 && d < 16 then Some(((a * 16 + b) * 16 + c) * 16 + d) else None
      case _ => None
  }

  /** The character after a backslash, a surrogate pair included; an unpaired surrogate is refused. */
  function Unescape(t: string): (r: Option<(char, string)>)
    ensures r.Some? ==> |r.value.1| < |t|
  {
    if t == [] then None
    else if t[0] == '\"' || t[0] == '\\' || t[0] == '/' then Some((t[0], t[1..]))
    else if t[0] == 'b' then Some(('\U{8}', t[1..]))
    else if t[0] == 'f' then Some(('\U{c}', t[1..]))
    else if t[0] == 'n' then Some(('\n', t[1..]))
    else if t[0] == 'r' then Some(('\r', t[1..]))
    else if t[0] == 't' then Some(('\t', t[1..]))
    else if t[0] != 'u' then None
    else
      match Unit(t[1..])
      case None => None
      case Some(high) =>
        if high < 0xd800 || high >= 0xe000 then Some((high as char, t[5..]))
        else if high >= 0xdc00 || |t| < 7 || t[5] != '\\' || t[6] != 'u' then None
        else
          match Unit(t[7..])
          case None => None
          case Some(low) =>
            if 0xdc00 <= low < 0xe000
            then Some(((0x10000 + (high - 0xd800) * 0x400 + (low - 0xdc00)) as char, t[11..]))
            else None
  }

  /** The rest of a string after its opening quote. */
  function ReadChars(t: string): (r: Option<(string, string)>)
    ensures r.Some? ==> |r.value.1| < |t|
    decreases |t|
  {
    if t == [] then None
    else if t[0] == '\"' then Some(("", t[1..]))
    else if t[0] == '\\' then
      match Unescape(t[1..])
      case None => None
      case Some((c, rest)) => Prepend(c, ReadChars(rest))
    else if t[0] < ' ' then None
    else Prepend(t[0], ReadChars(t[1..]))
  }

  function Prepend<T>(x: T, r: Option<(seq<T>, string)>): Option<(seq<T>, string)> {
    if r.None? then None else Some(([x] + r.value.0, r.value.1))
  }

  function ReadNumber(t: string): (r: Option<(Json, string)>)
    ensures r.Some? ==> |r.value.1| < |t|
  {
    var k := DigitRun(t);
    if !IsCanonical(t[..k]) || (k < |t| && t[k] in ['.', 'e', 'E']) then None
    else Some((Num(DecValue(t[..k])), t[k..]))
  }

  function ReadValue(t: string): (r: Option<(Json, string)>)
    ensures r.Some? ==> |r.value.1| < |t|
    decreases |t|, 0
  {
    var u := SkipSpace(t);
    if u == [] then None
    else if u[0] == '\"' then
      match ReadChars(u[1..])
      case None => None
      case Some((s, rest)) => Some((Str(s), rest))
    else if u[0] == '[' then
      var v := SkipSpace(u[1..]);
      if v != [] && v[0] == ']' then Some((Arr([]), v[1..]))
      else
        match ReadItems(v)
        case None => None
        case Some((items, rest)) => Some((Arr(items), rest))
    else if u[0] == '{' then
      var v := SkipSpace(u[1..]);
      if v != [] && v[0] == '}' then Some((Obj([]), v[1..]))
      else
        match ReadMembers(v)
        case None => None
        case Some((members, rest)) => Some((Obj(members), rest))
    else if "null" <= u then Some((Null, u[4..]))
    else if "true" <= u then Some((Bool(true), u[4..]))
    else if "false" <= u then Some((Bool(false), u[5..]))
    else ReadNumber(u)
  }

  function ReadItems(t: string): (r: Option<(seq<Json>, string)>)
    ensures r.Some? ==> |r.value.1| < |t|
    decreases |t|, 1
  {
    match ReadValue(t)
    case None => None
    case Some((item, after)) =>
      var u := SkipSpace(after);
      if u != [] && u[0] == ']' then Some(([item], u[1..]))
      else if u != [] && u[0] == ',' then Prepend(item, ReadItems(u[1..]))
      else None
  }

  function ReadMember(t: string): (r: Option<(Member, string)>)
    ensures r.Some? ==> |r.value.1| < |t|
    decreases |t|, 1
  {
    var u := SkipSpace(t);
    if u == [] || u[0] != '\"' then None
    else
      match ReadChars(u[1..])
      case None => None
      case Some((key, after)) =>
        var v := SkipSpace(after);
        if v == [] || v[0] != ':' then None
        else
          match ReadValue(v[1..])
          case None => None
          case Some((value, rest)) => Some((Member(key, value), rest))
  }

  function ReadMembers(t: string): (r: Option<(seq<Member>, string)>)
    ensures r.Some? ==> |r.value.1| < |t|
    decreases |t|, 2
  {
    match ReadMember(t)
    case None => None
    case Some((member, after)) =>
      var u := SkipSpace(after);
      if u != [] && u[0] == '}' then Some(([member], u[1..]))
      else if u != [] && u[0] == ',' then Prepend(member, ReadMembers(u[1..]))
      else None
  }

  /** One value and nothing but white space after it. */
  function Read(t: string): Option<Json> {
    match ReadValue(t)
    case None => None
    case Some((j, rest)) => if SkipSpace(rest) == [] then Some(j) else None
  }

  // ---- the reader inverts the printer ------------------------------------

  // Two facts about texts, stated once so that the proofs below need not search for them.

  lemma Dropped(head: string, tail: string)
    ensures (head + tail)[|head|..] == tail
    ensures forall i :: 0 <= i < |head| ==> (head + tail)[i] == head[i]
  {
  }

  lemma Regrouped(a: string, b: string, c: string, d: string)
    ensures a + b + c + d == a + (b + c + d) == a + (b + (c + d))
  {
  }

  lemma UnescapeEscaped(c: char, rest: string)
    requires EscapeChar(c)[0] == '\\'
    ensures Unescape(EscapeChar(c)[1..] + rest) == Some((c, rest))
  {
    Dropped(EscapeChar(c)[1..], rest);
    var t := EscapeChar(c)[1..] + rest;
    if |EscapeChar(c)| > 2 {
      assert t[1] == '0' && t[2] == '0';
      assert t[3] == Hex.Digit(c as int / 16) && t[4] == Hex.Digit(c as int % 16);
    }
  }

  lemma ReadEscapedChar(c: char, tail: string, s: string, rest: string)
    requires ReadChars(tail) == Some((s, rest))
    ensures ReadChars(EscapeChar(c) + tail) == Some(([c] + s, rest))
  {
    var e := EscapeChar(c);
    var t := e + tail;
    if e[0] == '\\' {
      UnescapeEscaped(c, tail);
      assert t[1..] == e[1..] + tail;
    } else {
      assert t[1..] == tail;
    }
  }

  lemma {:induction false} ReadEscaped(s: string, rest: string)
    ensures ReadChars(Escape(s) + "\"" + rest) == Some((s, rest))
  {
    var t := Escape(s) + "\"" + rest;
    if s == [] {
      assert t[1..] == rest;
    } else {
      var tail := Escape(s[1..]) + "\"" + rest;
      assert Escape(s) == EscapeChar(s[0]) + Escape(s[1..]);
      hide ReadChars, EscapeChar, Escape;
      ReadEscaped(s[1..], rest);
      ReadEscapedChar(s[0], tail, s[1..], rest);
      Regrouped(EscapeChar(s[0]), Escape(s[1..]), "\"", rest);
      assert s == [s[0]] + s[1..];
    }
  }

  /** What may follow a value inside a compact text. */
  predicate Closes(rest: string) {
    rest == [] || rest[0] == ',' || rest[0] == ']' || rest[0] == '}'
  }

  lemma PrintStart(j: Json)
    ensures !IsSpace(Print(j)[0]) && !Closes(Print(j))
  {
    if j.Num? {
      assert IsDigit(Dec(j.n)[0]);
    }
  }

  lemma ReadPrintedNumber(n: nat, rest: string)
    requires Closes(rest)
    ensures ReadNumber(Dec(n) + rest) == Some((Num(n), rest))
  {
    ValueOfDec(n);
    DigitRunOfPrefix(Dec(n), rest);
    assert (Dec(n) + rest)[..|Dec(n)|] == Dec(n) && (Dec(n) + rest)[|Dec(n)|..] == rest;
  }

  // One step of the reader at a time, so that the induction below need not open its definitions.

  lemma ReadString(t: string, s: string, rest: string)
    requires t != [] && t[0] == '\"' && ReadChars(t[1..]) == Some((s, rest))
    ensures ReadValue(t) == Some((Str(s), rest))
  {
  }

  lemma ReadLiteral(t: string, rest: string)
    ensures t == "null" + rest ==> ReadValue(t) == Some((Null, rest))
    ensures t == "true" + rest ==> ReadValue(t) == Some((Bool(true), rest))
    ensures t == "false" + rest ==> ReadValue(t) == Some((Bool(false), rest))
  {
    if t == "null" + rest || t == "true" + rest {
      assert t[4..] == rest;
    } else if t == "false" + rest {
      assert t[5..] == rest;
    }
  }

  lemma ReadDigits(t: string)
    requires t != [] && IsDigit(t[0])
    ensures ReadValue(t) == ReadNumber(t)
  {
    hide ReadNumber, ReadItems, ReadMembers, ReadChars;
    assert SkipSpace(t) == t;
    assert !("null" <= t) && !("true" <= t) && !("false" <= t);
  }

  /** `[` or `{` opens a nonempty array or object when what follows neither closes it nor is space. */
  lemma ReadOpened(t: string)
    requires |t| > 1 && !IsSpace(t[1])
    ensures t[0] == '[' && t[1] != ']' && ReadItems(t[1..]).Some? ==>
      ReadValue(t) == Some((Arr(ReadItems(t[1..]).value.0), ReadItems(t[1..]).value.1))
    ensures t[0] == '[' && t[1] == ']' ==> ReadValue(t) == Some((Arr([]), t[2..]))
    ensures t[0] == '{' && t[1] != '}' && ReadMembers(t[1..]).Some? ==>
      ReadValue(t) == Some((Obj(ReadMembers(t[1..]).value.0), ReadMembers(t[1..]).value.1))
    ensures t[0] == '{' && t[1] == '}' ==> ReadValue(t) == Some((Obj([]), t[2..]))
  {
    assert SkipSpace(t[1..]) == t[1..] && t[1..][1..] == t[2..];
  }

  lemma ReadItemsStep(t: string, item: Json, after: string)
    requires ReadValue(t) == Some((item, after)) && after != []
    ensures after[0] == ']' ==> ReadItems(t) == Some(([item], after[1..]))
    ensures after[0] == ',' ==> ReadItems(t) == Prepend(item, ReadItems(after[1..]))
  {
  }

  lemma ReadMemberStep(t: string, key: string, value: Json, colon: string, after: string)
    requires t != [] && t[0] == '\"' && ReadChars(t[1..]) == Some((key, colon))
    requires colon != [] && colon[0] == ':' && ReadValue(colon[1..]) == Some((value, after))
    ensures ReadMember(t) == Some((Member(key, value), after))
  {
  }

  lemma ReadMembersStep(t: string, member: Member, after: string)
    requires ReadMember(t) == Some((member, after)) && after != []
    ensures after[0] == '}' ==> ReadMembers(t) == Some(([member], after[1..]))
    ensures after[0] == ',' ==> ReadMembers(t) == Prepend(member, ReadMembers(after[1..]))
  {
  }

  lemma {:induction false} ReadPrinted(j: Json, rest: string)
    requires Closes(rest)
    ensures ReadValue(Print(j) + rest) == Some((j, rest))
    decreases j, 0
  {
    hide ReadValue, ReadItems, ReadMembers, ReadChars, ReadNumber, Escape, Dec;
    var t := Print(j) + rest;
    match j {
      case Null => ReadLiteral(t, rest);
      case Bool(b) => ReadLiteral(t, rest);
      case Num(n) =>
        ReadDigits(t);
        ReadPrintedNumber(n, rest);
      case Str(s) =>
        assert t[1..] == Escape(s) + "\"" + rest;
        ReadEscaped(s, rest);
        ReadString(t, s, rest);
      case Arr(items) => ReadPrintedArray(items, rest);
      case Obj(members) => ReadPrintedObject(members, rest);
    }
  }

  lemma {:induction false} ReadPrintedArray(items: seq<Json>, rest: string)
    ensures ReadValue(Print(Arr(items)) + rest) == Some((Arr(items), rest))
    decreases items, 2
  {
    hide ReadValue, ReadItems;
    var t := Print(Arr(items)) + rest;
    if items == [] {
      assert t == "[]" + rest && t[2..] == rest;
    } else {
      assert t[1..] == PrintItems(items) + "]" + rest;
      PrintStart(items[0]);
      assert PrintItems(items)[0] == Print(items[0])[0];
      ReadPrintedItems(items, rest);
    }
    ReadOpened(t);
  }

  lemma {:induction false} ReadPrintedObject(members: seq<Member>, rest: string)
    ensures ReadValue(Print(Obj(members)) + rest) == Some((Obj(members), rest))
    decreases members, 3
  {
    hide ReadValue, ReadMembers, Escape;
    var t := Print(Obj(members)) + rest;
    if members == [] {
      assert t == "{}" + rest && t[2..] == rest;
    } else {
      assert t[1..] == PrintMembers(members) + "}" + rest;
      assert PrintMember(members[0])[0] == '\"';
      assert PrintMembers(members)[0] == '\"';
      ReadPrintedMembers(members, rest);
    }
    ReadOpened(t);
  }

  lemma ItemsText(items: seq<Json>, rest: string)
    requires items != []
    ensures PrintItems(items) + "]" + rest ==
      Print(items[0]) + if |items| == 1 then "]" + rest else "," + (PrintItems(items[1..]) + "]" + rest)
  {
    var head := Print(items[0]);
    if |items| == 1 {
      assert PrintItems(items) == head;
      hide Print, PrintItems;
      Regrouped(head, "]", rest, "");
    } else {
      var tail := PrintItems(items[1..]);
      assert PrintItems(items) == head + "," + tail;
      hide Print, PrintItems;
      Regrouped(head, ",", tail, "]");
      Regrouped(head, "," + tail, "]", rest);
      Regrouped(",", tail, "]", rest);
    }
  }

  lemma {:induction false} ReadPrintedItems(items: seq<Json>, rest: string)
    requires items != []
    ensures ReadItems(PrintItems(items) + "]" + rest) == Some((items, rest))
    decreases items, 1
  {
    hide ReadValue, ReadItems, Print, PrintItems;
    ItemsText(items, rest);
    var t := PrintItems(items) + "]" + rest;
    var tail := if |items| == 1 then rest else PrintItems(items[1..]) + "]" + rest;
    var after := if |items| == 1 then "]" + tail else "," + tail;
    assert after[1..] == tail;
    ReadPrinted(items[0], after);
    ReadItemsStep(t, items[0], after);
    if |items| > 1 {
      ReadPrintedItems(items[1..], rest);
      assert items == [items[0]] + items[1..];
    } else {
      assert items == [items[0]];
    }
  }

  lemma {:induction false} ReadPrintedMember(m: Member, rest: string)
    requires Closes(rest)
    ensures ReadMember(PrintMember(m) + rest) == Some((m, rest))
    decreases m, 1
  {
    hide ReadValue, ReadChars, ReadMember, Print, Escape;
    var t := PrintMember(m) + rest;
    var value := Print(m.value) + rest;
    var colon := ":" + value;
    assert t[1..] == Escape(m.key) + "\"" + colon;
    ReadEscaped(m.key, colon);
    assert colon[1..] == value;
    ReadPrinted(m.value, rest);
    ReadMemberStep(t, m.key, m.value, colon, rest);
  }

  lemma {:induction false} ReadPrintedMembers(members: seq<Member>, rest: string)
    requires members != []
    ensures ReadMembers(PrintMembers(members) + "}" + rest) == Some((members, rest))
    decreases members, 2
  {
    hide ReadValue, ReadMember, ReadMembers, Print, PrintMember;
    var t := PrintMembers(members) + "}" + rest;
    var tail := if |members| == 1 then rest else PrintMembers(members[1..]) + "}" + rest;
    var after := (if |members| == 1 then "}" else ",") + tail;
    assert t == PrintMember(members[0]) + after && after[1..] == tail;
    ReadPrintedMember(members[0], after);
    ReadMembersStep(t, members[0], after);
    if |members| > 1 {
      ReadPrintedMembers(members[1..], rest);
      assert members == [members[0]] + members[1..];
    } else {
      assert members == [members[0]];
    }
  }

  /** Every JSON value is read back from its compact text. */
  lemma ReadInvertsPrint(j: Json)
    ensures Read(Print(j)) == Some(j)
  {
    ReadPrinted(j, []);
    assert Print(j) + [] == Print(j);
  }

  /** Hence no two values share a compact text. */
  lemma PrintInjective(x: Json, y: Json)
    requires Print(x) == Print(y)
    ensures x == y
  {
    ReadInvertsPrint(x);
    ReadInvertsPrint(y);
  }

  // ---- plain strings and lengths -----------------------------------------

  /** Strings the printer leaves alone: identifiers and hex. */
  predicate Plain(s: string) {
    forall i :: 0 <= i < |s| ==> s[i] >= ' ' && s[i] != '\"' && s[i] != '\\'
  }

  lemma {:induction false} EscapePlain(s: string)
    requires Plain(s)
    ensures Escape(s) == s
  {
    if s != [] {
      EscapePlain(s[1..]);
      assert s == [s[0]] + s[1..];
    }
  }
}
