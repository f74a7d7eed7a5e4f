/** JSON texts as sections 2 to 7 of RFC 8259 spell them, independently of the reader: white space wherever it may
    stand, every escape, and numbers as unsigned integers. The reader accepts exactly these texts. */
module JsonGrammar {
  import opened Wrappers
  import opened Decimal
  import opened Json

  // ---- spellings ---------------------------------------------------------

  /** One character of a string: itself, a two-character escape, four hex digits, or a surrogate pair. */
  datatype Spell = Raw(c: char) | Short(letter: char) | Unicode(digits: string) | Pair(high: string, low: string)

  /** A value with the white space inside it. */
  datatype Tree =
    | TNull
    | TBool(b: bool)
    | TNum(n: nat)
    | TStr(spells: seq<Spell>)
    | TArr(inside: string, items: seq<Item>)
    | TObj(inside: string, fields: seq<Field>)
  datatype Item = Item(before: string, value: Tree, after: string)
  datatype Field =
    Field(before: string, key: seq<Spell>, afterKey: string, beforeValue: string, value: Tree, after: string)

  predicate Blank(w: string) {
    forall i :: 0 <= i < |w| ==> w[i] in [' ', '\t', '\n', '\r']
  }

  function HexDigitOf(c: char): Option<nat> {
    if '0' <= c <= '9' then Some(c as int - '0' as int)
    else if 'a' <= c <= 'f' then Some(c as int - 'a' as int + 10)
    else if 'A' <= c <= 'F' then Some(c as int - 'A' as int + 10)
    else None
  }

  predicate FourHex(digits: string) {
    |digits| == 4 && forall i :: 0 <= i < 4 ==> HexDigitOf(digits[i]).Some?
  }

  function CodeUnit(digits: string): (n: nat)
    requires FourHex(digits)
    ensures n < 0x10000
  {
    HexDigitOf(digits[0]).value * 4096 + HexDigitOf(digits[1]).value * 256 + HexDigitOf(digits[2]).value * 16
    + HexDigitOf(digits[3]).value
  }

  const SHORT := map['\"' := '\"', '\\' := '\\', '/' := '/', 'b' := '\U{8}', 'f' := '\U{c}', 'n' := '\n', 'r' := '\r',
                     't' := '\t']

  predicate SpellOk(p: Spell) {
    match p
    case Raw(c) => c >= ' ' && c != '\"' && c != '\\'
    case Short(letter) => letter in SHORT
    case Unicode(digits) => FourHex(digits) && !(0xD800 <= CodeUnit(digits) < 0xE000)
    case Pair(high, low) =>
      FourHex(high) && FourHex(low) && 0xD800 <= CodeUnit(high) < 0xDC00 && 0xDC00 <= CodeUnit(low) < 0xE000
  }

  function SpellChar(p: Spell): char
    requires SpellOk(p)
  {
    match p
    case Raw(c) => c
    case Short(letter) => SHORT[letter]
    case Unicode(digits) => CodeUnit(digits) as char
    case Pair(high, low) => (0x10000 + 0x400 * (CodeUnit(high) - 0xD800) + (CodeUnit(low) - 0xDC00)) as char
  }

  function SpellText(p: Spell): string {
    match p
    case Raw(c) => [c]
    case Short(letter) => ['\\', letter]
    case Unicode(digits) => "\\u" + digits
    case Pair(high, low) => "\\u" + (high + ("\\u" + low))
  }

  predicate SpellsOk(spells: seq<Spell>) {
    forall i :: 0 <= i < |spells| ==> SpellOk(spells[i])
  }

  function Chars(spells: seq<Spell>): string
    requires SpellsOk(spells)
  {
    if spells == [] then "" else [SpellChar(spells[0])] + Chars(spells[1..])
  }

  predicate TreeOk(tree: Tree) {
    match tree
    case TStr(spells) => SpellsOk(spells)
    case TArr(inside, items) => Blank(inside) && ItemsOk(items)
    case TObj(inside, fields) => Blank(inside) && FieldsOk(fields)
    case _ => true
  }

  predicate ItemsOk(items: seq<Item>) {
    items != [] ==>
      && Blank(items[0].before) && TreeOk(items[0].value) && Blank(items[0].after)
      && ItemsOk(items[1..])
  }

  predicate FieldsOk(fields: seq<Field>) {
    fields != [] ==>
      var f := fields[0];
      && Blank(f.before) && SpellsOk(f.key) && Blank(f.afterKey)
      && Blank(f.beforeValue) && TreeOk(f.value) && Blank(f.after)
      && FieldsOk(fields[1..])
  }

  /** What a tree denotes. */
  function Meaning(tree: Tree): Json
    requires TreeOk(tree)
  {
    match tree
    case TNull => Null
    case TBool(b) => Bool(b)
    case TNum(n) => Num(n)
    case TStr(spells) => Str(Chars(spells))
    case TArr(_, items) => Arr(Meanings(items))
    case TObj(_, fields) => Obj(FieldMeanings(fields))
  }

  function Meanings(items: seq<Item>): seq<Json>
    requires ItemsOk(items)
  {
    if items == [] then [] else [Meaning(items[0].value)] + Meanings(items[1..])
  }

  function FieldMeanings(fields: seq<Field>): seq<Member>
    requires FieldsOk(fields)
  {
    if fields == [] then []
    else [Member(Chars(fields[0].key), Meaning(fields[0].value))] + FieldMeanings(fields[1..])
  }

  // Every text is written with what follows it, so that no proof has to regroup a concatenation.

  function SpellsThen(spells: seq<Spell>, rest: string): string {
    if spells == [] then rest else SpellText(spells[0]) + SpellsThen(spells[1..], rest)
  }

  function StringThen(spells: seq<Spell>, rest: string): string {
    ['\"'] + SpellsThen(spells, ['\"'] + rest)
  }

  /** The text of a tree, followed by `rest`. */
  function TextThen(tree: Tree, rest: string): string
    decreases tree
  {
    match tree
    case TNull => "null" + rest
    case TBool(b) => if b then "true" + rest else "false" + rest
    case TNum(n) => Dec(n) + rest
    case TStr(spells) => StringThen(spells, rest)
    case TArr(inside, items) =>
      ['['] + (if items == [] then inside + ([']'] + rest) else ItemsThen(items, [']'] + rest))
    case TObj(inside, fields) =>
      ['{'] + (if fields == [] then inside + (['}'] + rest) else FieldsThen(fields, ['}'] + rest))
  }

  /** Items separated by commas. */
  function ItemsThen(items: seq<Item>, rest: string): string
    requires items != []
    decreases items
  {
    items[0].before
    + TextThen(items[0].value, items[0].after + (if |items| == 1 then rest else [','] + ItemsThen(items[1..], rest)))
  }

  function FieldThen(f: Field, rest: string): string
    decreases f
  {
    f.before + StringThen(f.key, f.afterKey + ([':'] + (f.beforeValue + TextThen(f.value, f.after + rest))))
  }

  function FieldsThen(fields: seq<Field>, rest: string): string
    requires fields != []
    decreases fields
  {
    FieldThen(fields[0], if |fields| == 1 then rest else [','] + FieldsThen(fields[1..], rest))
  }

  /** `text` is a JSON text that denotes `j`. */
  ghost predicate Denotes(text: string, j: Json) {
    exists before, tree, after ::
      Blank(before) && Blank(after) && TreeOk(tree) && Meaning(tree) == j && text == before + TextThen(tree, after)
  }

  // ---- white space -------------------------------------------------------

  lemma {:induction false} SkipBlank(w: string, t: string)
    requires Blank(w)
    ensures SkipSpace(w + t) == SkipSpace(t)
  {
    if w == [] {
      assert w + t == t;
    } else {
      assert (w + t)[1..] == w[1..] + t;
      SkipBlank(w[1..], t);
    }
  }

  lemma {:induction false} SkipFinds(t: string) returns (w: string)
    ensures Blank(w) && t == w + SkipSpace(t)
    ensures SkipSpace(t) == [] || !IsSpace(SkipSpace(t)[0])
  {
    w := [];
    if t != [] && IsSpace(t[0]) {
      var v := SkipFinds(t[1..]);
      w := [t[0]] + v;
      assert t == [t[0]] + t[1..];
    }
  }

  // ---- strings: every spelling is read -----------------------------------

  lemma UnitReads(digits: string, rest: string)
    requires FourHex(digits)
    ensures Unit(digits + rest) == Some(CodeUnit(digits))
  {
    forall i | 0 <= i < 4 ensures (digits + rest)[i] == digits[i] && Nibble(digits[i]) == HexDigitOf(digits[i]) {
    }
  }

  predicate Unescapes(p: Spell, rest: string)
    requires SpellOk(p)
  {
    var t := SpellText(p) + rest;
    t[0] == '\\' && Unescape(t[1..]) == Some((SpellChar(p), rest))
  }

  lemma ShortReads(letter: char, rest: string)
    requires letter in SHORT
    ensures Unescapes(Short(letter), rest)
  {
    var t := SpellText(Short(letter)) + rest;
    assert t[1..] == [letter] + rest && t[1..][1..] == rest;
  }

  lemma UnicodeReads(digits: string, rest: string)
    requires SpellOk(Unicode(digits))
    ensures Unescapes(Unicode(digits), rest)
  {
    var t := (SpellText(Unicode(digits)) + rest)[1..];
    assert t[0] == 'u' && t[1..] == digits + rest && t[5..] == rest;
    UnitReads(digits, rest);
    hide Unit, CodeUnit, FourHex;
  }

  lemma PairReads(high: string, low: string, rest: string)
    requires SpellOk(Pair(high, low))
    ensures Unescapes(Pair(high, low), rest)
  {
    var t := (SpellText(Pair(high, low)) + rest)[1..];
    assert t[0] == 'u' && t[5] == '\\' && t[6] == 'u';
    assert t[1..] == high + ("\\u" + low + rest) && t[7..] == low + rest && t[11..] == rest;
    UnitReads(high, "\\u" + low + rest);
    UnitReads(low, rest);
    hide Unit, CodeUnit, FourHex;
  }

  lemma SpellReads(p: Spell, rest: string)
    requires SpellOk(p) && !p.Raw?
    ensures Unescapes(p, rest)
  {
    hide Unescapes;
    match p
    case Short(letter) => ShortReads(letter, rest);
    case Unicode(digits) => UnicodeReads(digits, rest);
    case Pair(high, low) => PairReads(high, low, rest);
    case Raw(_) =>
  }

  lemma {:induction false} CharsRead(spells: seq<Spell>, rest: string)
    requires SpellsOk(spells)
    ensures ReadChars(SpellsThen(spells, ['\"'] + rest)) == Some((Chars(spells), rest))
  {
    if spells != [] {
      var p, tail := spells[0], SpellsThen(spells[1..], ['\"'] + rest);
      CharsRead(spells[1..], rest);
      var t := SpellText(p) + tail;
      if p.Raw? {
        assert t[1..] == tail;
      } else {
        SpellReads(p, tail);
      }
    }
  }

  // ---- values: every text is read ----------------------------------------

  /** What may follow a number. */
  predicate Ends(rest: string) {
    rest == [] || !(IsDigit(rest[0]) || rest[0] in ['.', 'e', 'E'])
  }

  lemma BlankEnds(w: string, tail: string)
    requires Blank(w) && tail != [] && tail[0] in [',', ']', '}']
    ensures Ends(w + tail) && SkipSpace(w + tail) == tail
  {
    SkipBlank(w, tail);
  }

  lemma TextStarts(tree: Tree, rest: string)
    ensures
      var t := TextThen(tree, rest);
      t != [] && !IsSpace(t[0]) && t[0] != ']' && t[0] != '}'
  {
    if tree.TNum? {
      assert IsDigit(Dec(tree.n)[0]);
    }
  }

  /** White space before a value, an item list or a member changes nothing. */
  lemma BlankBefore(w: string, t: string)
    requires Blank(w)
    ensures ReadValue(w + t) == ReadValue(t)
    ensures ReadItems(w + t) == ReadItems(t)
    ensures ReadMember(w + t) == ReadMember(t) && ReadMembers(w + t) == ReadMembers(t)
  {
    hide ReadChars, ReadNumber;
    SkipBlank(w, t);
  }

  lemma NumberReads(n: nat, rest: string)
    requires Ends(rest)
    ensures ReadValue(Dec(n) + rest) == Some((Num(n), rest))
  {
    ValueOfDec(n);
    DigitRunOfPrefix(Dec(n), rest);
    assert (Dec(n) + rest)[..|Dec(n)|] == Dec(n) && (Dec(n) + rest)[|Dec(n)|..] == rest;
    assert ReadNumber(Dec(n) + rest) == Some((Num(n), rest));
    assert IsDigit((Dec(n) + rest)[0]);
  }

  lemma StringReads(spells: seq<Spell>, rest: string)
    requires SpellsOk(spells)
    ensures
      var t := StringThen(spells, rest);
      t[0] == '\"' && ReadChars(t[1..]) == Some((Chars(spells), rest))
  {
    CharsRead(spells, rest);
    var t := StringThen(spells, rest);
    assert t[1..] == SpellsThen(spells, ['\"'] + rest);
  }

  /** The text of every tree is read, up to what follows it, as what the tree denotes. */
  lemma {:induction false} ValueReads(tree: Tree, rest: string)
    requires TreeOk(tree) && (tree.TNum? ==> Ends(rest))
    ensures ReadValue(TextThen(tree, rest)) == Some((Meaning(tree), rest))
    decreases tree, 0
  {
    var t := TextThen(tree, rest);
    TextStarts(tree, rest);
    match tree
    case TNum(n) => NumberReads(n, rest);
    case TStr(spells) =>
      StringReads(spells, rest);
      ReadString(t, Chars(spells), rest);
    case TArr(inside, items) => ArrayReads(inside, items, rest);
    case TObj(inside, fields) => ObjectReads(inside, fields, rest);
    case _ => ReadLiteral(t, rest);
  }

  // One step of the reader at a time, so that the induction below need not open its definitions.

  lemma OpenedArray(body: string)
    ensures
      var v := SkipSpace(body);
      && (v != [] && v[0] == ']' ==> ReadValue(['['] + body) == Some((Arr([]), v[1..])))
      && (v != [] && v[0] != ']' && ReadItems(v).Some? ==>
            ReadValue(['['] + body) == Some((Arr(ReadItems(v).value.0), ReadItems(v).value.1)))
  {
    hide ReadItems, ReadMembers, ReadChars, ReadNumber;
    assert (['['] + body)[1..] == body;
  }

  lemma OpenedObject(body: string)
    ensures
      var v := SkipSpace(body);
      && (v != [] && v[0] == '}' ==> ReadValue(['{'] + body) == Some((Obj([]), v[1..])))
      && (v != [] && v[0] != '}' && ReadMembers(v).Some? ==>
            ReadValue(['{'] + body) == Some((Obj(ReadMembers(v).value.0), ReadMembers(v).value.1)))
  {
    hide ReadItems, ReadMembers, ReadChars, ReadNumber;
    assert (['{'] + body)[1..] == body;
  }

  lemma ItemsStep(t: string, item: Json, after: string)
    requires ReadValue(t) == Some((item, after)) && SkipSpace(after) != []
    ensures
      var u := SkipSpace(after);
      && (u[0] == ']' ==> ReadItems(t) == Some(([item], u[1..])))
      && (u[0] == ',' ==> ReadItems(t) == Prepend(item, ReadItems(u[1..])))
  {
    hide ReadValue;
  }

  lemma MembersStep(t: string, member: Member, after: string)
    requires ReadMember(t) == Some((member, after)) && SkipSpace(after) != []
    ensures
      var u := SkipSpace(after);
      && (u[0] == '}' ==> ReadMembers(t) == Some(([member], u[1..])))
      && (u[0] == ',' ==> ReadMembers(t) == Prepend(member, ReadMembers(u[1..])))
  {
    hide ReadMember;
  }

  lemma MemberStep(t: string, key: string, after: string, value: Json, rest: string)
    requires t != [] && t[0] == '\"' && ReadChars(t[1..]) == Some((key, after))
    requires SkipSpace(after) != [] && SkipSpace(after)[0] == ':'
    requires ReadValue(SkipSpace(after)[1..]) == Some((value, rest))
    ensures ReadMember(t) == Some((Member(key, value), rest))
  {
    hide ReadValue, ReadChars;
  }

  lemma {:induction false} ArrayReads(inside: string, items: seq<Item>, rest: string)
    requires Blank(inside) && ItemsOk(items)
    ensures ReadValue(TextThen(TArr(inside, items), rest)) == Some((Arr(Meanings(items)), rest))
    decreases items, 2
  {
    hide ReadValue, ReadItems, ReadMember;
    if items == [] {
      OpenedArray(inside + ([']'] + rest));
      SkipBlank(inside, [']'] + rest);
    } else {
      ItemsRead(items, rest);
      var tail := if |items| == 1 then [']'] + rest else [','] + ItemsThen(items[1..], [']'] + rest);
      var inner := TextThen(items[0].value, items[0].after + tail);
      OpenedArray(items[0].before + inner);
      TextStarts(items[0].value, items[0].after + tail);
      SkipBlank(items[0].before, inner);
      BlankBefore(items[0].before, inner);
    }
  }

  lemma {:induction false} ItemsRead(items: seq<Item>, rest: string)
    requires items != [] && ItemsOk(items)
    ensures ReadItems(ItemsThen(items, [']'] + rest)) == Some((Meanings(items), rest))
    decreases items, 1
  {
    hide ReadValue, ReadItems, ReadMember, Ends;
    var tail := if |items| == 1 then [']'] + rest else [','] + ItemsThen(items[1..], [']'] + rest);
    var value := TextThen(items[0].value, items[0].after + tail);
    BlankEnds(items[0].after, tail);
    ValueReads(items[0].value, items[0].after + tail);
    BlankBefore(items[0].before, value);
    ItemsStep(items[0].before + value, Meaning(items[0].value), items[0].after + tail);
    if |items| > 1 {
      ItemsRead(items[1..], rest);
      assert tail[1..] == ItemsThen(items[1..], [']'] + rest);
    } else {
      assert tail[1..] == rest && Meanings(items) == [Meaning(items[0].value)];
    }
  }

  lemma {:induction false} ObjectReads(inside: string, fields: seq<Field>, rest: string)
    requires Blank(inside) && FieldsOk(fields)
    ensures ReadValue(TextThen(TObj(inside, fields), rest)) == Some((Obj(FieldMeanings(fields)), rest))
    decreases fields, 3
  {
    hide ReadValue, ReadMembers, ReadMember, StringThen;
    if fields == [] {
      OpenedObject(inside + (['}'] + rest));
      SkipBlank(inside, ['}'] + rest);
    } else {
      FieldsRead(fields, rest);
      var tail := if |fields| == 1 then ['}'] + rest else [','] + FieldsThen(fields[1..], ['}'] + rest);
      var inner := FieldStarts(fields[0], tail);
      OpenedObject(fields[0].before + inner);
      SkipBlank(fields[0].before, inner);
      BlankBefore(fields[0].before, inner);
    }
  }

  lemma FieldStarts(f: Field, tail: string) returns (inner: string)
    ensures inner != [] && inner[0] == '\"'
    ensures forall w :: FieldThen(f.(before := w), tail) == w + inner
    ensures FieldThen(f, tail) == f.before + inner
  {
    inner := StringThen(f.key, f.afterKey + ([':'] + (f.beforeValue + TextThen(f.value, f.after + tail))));
  }

  lemma {:induction false} FieldsRead(fields: seq<Field>, rest: string)
    requires fields != [] && FieldsOk(fields)
    ensures ReadMembers(FieldsThen(fields, ['}'] + rest)) == Some((FieldMeanings(fields), rest))
    decreases fields, 2
  {
    hide ReadMembers, ReadMember, FieldThen, Ends;
    var f := fields[0];
    var tail := if |fields| == 1 then ['}'] + rest else [','] + FieldsThen(fields[1..], ['}'] + rest);
    BlankEnds(f.after, tail);
    FieldReads(f, tail);
    MembersStep(FieldThen(f, tail), Member(Chars(f.key), Meaning(f.value)), f.after + tail);
    if |fields| > 1 {
      FieldsRead(fields[1..], rest);
      assert tail[1..] == FieldsThen(fields[1..], ['}'] + rest);
    } else {
      assert tail[1..] == rest && FieldMeanings(fields) == [Member(Chars(f.key), Meaning(f.value))];
    }
  }

  lemma {:induction false} FieldReads(f: Field, tail: string)
    requires FieldsOk([f]) && tail != [] && tail[0] in [',', '}']
    ensures ReadMember(FieldThen(f, tail)) == Some((Member(Chars(f.key), Meaning(f.value)), f.after + tail))
    decreases f, 1
  {
    hide ReadMember, ReadValue, ReadChars, Ends;
    BlankEnds(f.after, tail);
    var value := TextThen(f.value, f.after + tail);
    ValueReads(f.value, f.after + tail);
    BlankBefore(f.beforeValue, value);
    var colon := [':'] + (f.beforeValue + value);
    SkipBlank(f.afterKey, colon);
    assert colon[1..] == f.beforeValue + value;
    StringReads(f.key, f.afterKey + colon);
    var t := StringThen(f.key, f.afterKey + colon);
    MemberStep(t, Chars(f.key), f.afterKey + colon, Meaning(f.value), f.after + tail);
    BlankBefore(f.before, t);
  }

  // ---- nothing else is read ----------------------------------------------

  lemma UnitIsHex(t: string) returns (digits: string)
    requires Unit(t).Some?
    ensures FourHex(digits) && CodeUnit(digits) == Unit(t).value && t == digits + t[4..]
  {
    digits := t[..4];
    assert forall i :: 0 <= i < 4 ==> Nibble(t[i]) == HexDigitOf(digits[i]);
  }

  lemma UnescapedShort(t: string) returns (p: Spell)
    requires Unescape(t).Some? && t[0] != 'u'
    ensures SpellOk(p) && !p.Raw? && SpellChar(p) == Unescape(t).value.0
    ensures ['\\'] + t == SpellText(p) + Unescape(t).value.1
  {
    p := Short(t[0]);
    assert t == [t[0]] + t[1..];
  }

  lemma UnescapedUnicode(t: string) returns (p: Spell)
    requires Unescape(t).Some? && t[0] == 'u'
    ensures SpellOk(p) && !p.Raw? && SpellChar(p) == Unescape(t).value.0
    ensures ['\\'] + t == SpellText(p) + Unescape(t).value.1
  {
    var high := UnitIsHex(t[1..]);
    assert t[1..][4..] == t[5..] && t == ['u'] + t[1..];
    if CodeUnit(high) < 0xD800 || CodeUnit(high) >= 0xE000 {
      hide CodeUnit, FourHex, Unit;
      p := Unicode(high);
      assert ['\\'] + (['u'] + (high + t[5..])) == ("\\u" + high) + t[5..];
    } else {
      p := UnescapedPair(t, high);
    }
  }

  lemma UnescapedPair(t: string, high: string) returns (p: Spell)
    requires Unescape(t).Some? && t[0] == 'u' && FourHex(high) && t == ['u'] + (high + t[5..])
    requires Unit(t[1..]) == Some(CodeUnit(high)) && 0xD800 <= CodeUnit(high) < 0xE000
    ensures SpellOk(p) && !p.Raw? && SpellChar(p) == Unescape(t).value.0
    ensures ['\\'] + t == SpellText(p) + Unescape(t).value.1
  {
    var low := UnitIsHex(t[7..]);
    hide CodeUnit, FourHex, Unit;
    p := Pair(high, low);
    var rest := Unescape(t).value.1;
    assert rest == t[11..];
    hide Unescape, SpellChar, SpellOk;
    assert t[7..][4..] == rest && t[5..] == "\\u" + t[7..];
    PairRegroups(high, low, rest);
  }

  lemma PairRegroups(high: string, low: string, rest: string)
    ensures ['\\'] + (['u'] + (high + ("\\u" + (low + rest)))) == SpellText(Pair(high, low)) + rest
  {
  }

  /** Whatever is read as a string is spelled as one. */
  lemma {:induction false} CharsAreSpelled(t: string) returns (spells: seq<Spell>)
    requires ReadChars(t).Some?
    ensures SpellsOk(spells) && Chars(spells) == ReadChars(t).value.0
    ensures t == SpellsThen(spells, ['\"'] + ReadChars(t).value.1)
    decreases |t|
  {
    spells := [];
    assert t == [t[0]] + t[1..];
    if t[0] != '\"' {
      var p, tail := Raw(t[0]), t[1..];
      if t[0] == '\\' {
        tail := Unescape(t[1..]).value.1;
        if t[1] == 'u' { p := UnescapedUnicode(t[1..]); } else { p := UnescapedShort(t[1..]); }
      }
      hide Unescape;
      var more := CharsAreSpelled(tail);
      spells := [p] + more;
      assert spells[1..] == more;
    }
  }

  lemma NumberIsSpelled(t: string)
    requires ReadNumber(t).Some?
    ensures ReadNumber(t).value.0.Num? && t == Dec(ReadNumber(t).value.0.n) + ReadNumber(t).value.1
  {
    DecOfValue(t[..DigitRun(t)]);
  }

  lemma BlankConcat(w: string, v: string)
    requires Blank(w) && Blank(v)
    ensures Blank(w + v)
  {
  }

  // White space before a list belongs to its first entry.

  function IndentedItems(w: string, items: seq<Item>): (more: seq<Item>)
    requires items != []
    ensures more != [] && |more| == |items| && more[1..] == items[1..]
  {
    [items[0].(before := w + items[0].before)] + items[1..]
  }

  lemma IndentedItemsText(w: string, items: seq<Item>, rest: string)
    requires items != []
    ensures ItemsThen(IndentedItems(w, items), rest) == w + ItemsThen(items, rest)
  {
    var tail := if |items| == 1 then rest else [','] + ItemsThen(items[1..], rest);
    var inner := TextThen(items[0].value, items[0].after + tail);
    hide TextThen;
    assert IndentedItems(w, items)[0] == items[0].(before := w + items[0].before);
    assert w + items[0].before + inner == w + (items[0].before + inner);
  }

  lemma IndentedItemsOk(w: string, items: seq<Item>)
    requires Blank(w) && items != [] && ItemsOk(items)
    ensures ItemsOk(IndentedItems(w, items)) && Meanings(IndentedItems(w, items)) == Meanings(items)
  {
    BlankConcat(w, items[0].before);
    hide Blank, Meaning;
  }

  function Indented(w: string, fields: seq<Field>): (more: seq<Field>)
    requires fields != []
    ensures more != [] && |more| == |fields| && more[1..] == fields[1..]
  {
    [fields[0].(before := w + fields[0].before)] + fields[1..]
  }

  lemma IndentedText(w: string, fields: seq<Field>, rest: string)
    requires fields != []
    ensures FieldsThen(Indented(w, fields), rest) == w + FieldsThen(fields, rest)
  {
    hide StringThen, TextThen;
    var tail := if |fields| == 1 then rest else [','] + FieldsThen(fields[1..], rest);
    var inner := FieldStarts(fields[0], tail);
    hide FieldThen;
    assert Indented(w, fields)[0] == fields[0].(before := w + fields[0].before);
    assert w + fields[0].before + inner == w + (fields[0].before + inner);
  }

  lemma IndentedOk(w: string, fields: seq<Field>)
    requires Blank(w) && fields != [] && FieldsOk(fields)
    ensures FieldsOk(Indented(w, fields)) && FieldMeanings(Indented(w, fields)) == FieldMeanings(fields)
  {
    BlankConcat(w, fields[0].before);
    hide Blank, Chars, Meaning, SpellsOk;
  }

  /** Whatever is read as a value is the text of some tree that denotes it. */
  lemma {:induction false} ValueIsText(t: string) returns (w: string, tree: Tree)
    requires ReadValue(t).Some?
    ensures Blank(w) && TreeOk(tree) && Meaning(tree) == ReadValue(t).value.0
    ensures t == w + TextThen(tree, ReadValue(t).value.1)
    decreases |t|, 1
  {
    w := SkipFinds(t);
    var u := SkipSpace(t);
    var rest := ReadValue(t).value.1;
    if u[0] == '\"' {
      var spells := CharsAreSpelled(u[1..]);
      tree := TStr(spells);
      assert u == ['\"'] + u[1..];
    } else if u[0] == '[' {
      tree := ArrayIsText(u);
      OnlySpaceBefore(t);
    } else if u[0] == '{' {
      tree := ObjectIsText(u);
      OnlySpaceBefore(t);
    } else if "null" <= u {
      tree := TNull;
      assert u == "null" + u[4..];
    } else if "true" <= u {
      tree := TBool(true);
      assert u == "true" + u[4..];
    } else if "false" <= u {
      tree := TBool(false);
      assert u == "false" + u[5..];
    } else {
      NumberIsSpelled(u);
      tree := TNum(ReadNumber(u).value.0.n);
    }
  }

  lemma OnlySpaceBefore(t: string)
    ensures ReadValue(SkipSpace(t)) == ReadValue(t)
  {
    hide ReadChars, ReadNumber, ReadItems, ReadMembers;
    var w := SkipFinds(t);
    BlankBefore(w, SkipSpace(t));
  }

  lemma {:induction false} ArrayIsText(t: string) returns (tree: Tree)
    requires t != [] && t[0] == '[' && ReadValue(t).Some?
    ensures TreeOk(tree) && Meaning(tree) == ReadValue(t).value.0 && t == TextThen(tree, ReadValue(t).value.1)
    decreases |t|, 0
  {
    var inside := SkipFinds(t[1..]);
    var v := SkipSpace(t[1..]);
    assert t == ['['] + t[1..];
    OpenedArray(t[1..]);
    if v != [] && v[0] == ']' {
      tree := TArr(inside, []);
      assert v == [']'] + v[1..];
    } else {
      var items := ItemsAreText(v);
      hide ReadValue, ReadItems, ItemsThen, ItemsOk, Meanings;
      IndentedItemsOk(inside, items);
      IndentedItemsText(inside, items, [']'] + ReadItems(v).value.1);
      tree := TArr([], IndentedItems(inside, items));
    }
  }

  lemma {:induction false} ItemsAreText(t: string) returns (items: seq<Item>)
    requires ReadItems(t).Some?
    ensures items != [] && ItemsOk(items) && Meanings(items) == ReadItems(t).value.0
    ensures t == ItemsThen(items, [']'] + ReadItems(t).value.1)
    decreases |t|, 2
  {
    var w, tree := ValueIsText(t);
    var (item, after) := ReadValue(t).value;
    var v := SkipFinds(after);
    var u := SkipSpace(after);
    assert u == [u[0]] + u[1..];
    hide TextThen, Meaning;
    items := [Item(w, tree, v)];
    if u[0] == ']' {
      hide ReadItems, ReadValue;
      assert Meanings(items) == [item];
    } else {
      var more := ItemsAreText(u[1..]);
      hide ReadItems, ReadValue;
      items := items + more;
      assert items[1..] == more;
    }
  }

  lemma {:induction false} ObjectIsText(t: string) returns (tree: Tree)
    requires t != [] && t[0] == '{' && ReadValue(t).Some?
    ensures TreeOk(tree) && Meaning(tree) == ReadValue(t).value.0 && t == TextThen(tree, ReadValue(t).value.1)
    decreases |t|, 0
  {
    var inside := SkipFinds(t[1..]);
    var v := SkipSpace(t[1..]);
    assert t == ['{'] + t[1..];
    OpenedObject(t[1..]);
    if v != [] && v[0] == '}' {
      tree := TObj(inside, []);
      assert v == ['}'] + v[1..];
    } else {
      var fields := FieldsAreText(v);
      hide ReadValue, ReadMembers, FieldsThen, FieldsOk, FieldMeanings;
      IndentedOk(inside, fields);
      IndentedText(inside, fields, ['}'] + ReadMembers(v).value.1);
      tree := TObj([], Indented(inside, fields));
    }
  }

  lemma {:induction false} FieldIsText(t: string) returns (f: Field)
    requires ReadMember(t).Some?
    ensures f.after == [] && FieldsOk([f]) && Member(Chars(f.key), Meaning(f.value)) == ReadMember(t).value.0
    ensures t == FieldThen(f, ReadMember(t).value.1)
    decreases |t|, 2
  {
    var before := SkipFinds(t);
    var u := SkipSpace(t);
    var key := CharsAreSpelled(u[1..]);
    var after := ReadChars(u[1..]).value.1;
    var afterKey := SkipFinds(after);
    var v := SkipSpace(after);
    var beforeValue, value := ValueIsText(v[1..]);
    assert u == ['\"'] + u[1..] && v == [':'] + v[1..];
    f := Field(before, key, afterKey, beforeValue, value, []);
    var rest := ReadMember(t).value.1;
    assert ReadValue(v[1..]).value.1 == rest && [] + rest == rest;
    assert FieldsOk([f]) by { assert [f][1..] == []; }
    hide ReadMember, ReadValue, ReadChars, FieldsOk, SpellsThen, TextThen, Meaning, Chars;
  }

  lemma {:induction false} FieldsAreText(t: string) returns (fields: seq<Field>)
    requires ReadMembers(t).Some?
    ensures fields != [] && FieldsOk(fields) && FieldMeanings(fields) == ReadMembers(t).value.0
    ensures t == FieldsThen(fields, ['}'] + ReadMembers(t).value.1)
    decreases |t|, 3
  {
    var f := FieldIsText(t);
    var (member, rest) := ReadMember(t).value;
    var v := SkipFinds(rest);
    var u := SkipSpace(rest);
    assert u == [u[0]] + u[1..];
    fields := [f.(after := v)];
    AfterField(f, v, u);
    if u[0] == '}' {
      hide ReadMembers, ReadMember;
      assert FieldMeanings(fields) == [member];
    } else {
      var more := FieldsAreText(u[1..]);
      hide ReadMembers, ReadMember;
      fields := fields + more;
      assert fields[1..] == more;
    }
  }

  lemma AfterField(f: Field, v: string, u: string)
    requires f.after == []
    ensures FieldThen(f, v + u) == FieldThen(f.(after := v), u)
  {
    assert [] + (v + u) == v + u;
  }

  // ---- the reader is the grammar -----------------------------------------

  /** The reader takes exactly the JSON texts, and reads each as what it denotes. */
  lemma ReadIffDenotes(text: string, j: Json)
    ensures Read(text) == Some(j) <==> Denotes(text, j)
  {
    hide ReadValue, TextThen, Meaning;
    if Read(text) == Some(j) {
      var w, tree := ValueIsText(text);
      var v := SkipFinds(ReadValue(text).value.1);
      assert v + [] == v;
    }
    if Denotes(text, j) {
      var before, tree, after :|
        Blank(before) && Blank(after) && TreeOk(tree) && Meaning(tree) == j && text == before + TextThen(tree, after);
      ValueReads(tree, after);
      BlankBefore(before, TextThen(tree, after));
      SkipBlank(after, []);
      assert after + [] == after;
    }
  }
}
