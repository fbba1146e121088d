/**
 * The text of a JSON value, and that it determines the value.
 *
 * A value's text tells by its first unit what kind of value it is, and where it ends follows from its kind: a number
 * before a delimiter, a string at the first quote that is not escaped, and a list or an object at its closing bracket.
 * So the text that follows a value is determined with it, and values that share a text are equal.
 */
module JsonText {
  import opened CanonicalJson

  predicate IsLead(u: CodeUnit) {
    0xD800 <= u <= 0xDBFF
  }

  predicate IsTrail(u: CodeUnit) {
    0xDC00 <= u <= 0xDFFF
  }

  function HexDigit(n: nat): CodeUnit
    requires n < 16
  {
    if n < 10 then 48 + n else 87 + n
  }

  /** A unit as a four-digit escape. */
  function HexEscape(u: CodeUnit): Text {
    [BACKSLASH, 117, HexDigit(u / 4096), HexDigit(u / 256 % 16), HexDigit(u / 16 % 16), HexDigit(u % 16)]
  }

  /** The escape of a unit that stands alone. */
  function EscapeUnit(u: CodeUnit): Text {
    if u == 8 then [BACKSLASH, 98]
    else if u == 9 then [BACKSLASH, 116]
    else if u == 10 then [BACKSLASH, 110]
    else if u == 12 then [BACKSLASH, 102]
    else if u == 13 then [BACKSLASH, 114]
    else if u == QUOTE || u == BACKSLASH then [BACKSLASH, u]
    else if u < 32 || IsLead(u) || IsTrail(u) then HexEscape(u)
    else [u]
  }

  predicate StartsPair(s: Text) {
    |s| >= 2 && IsLead(s[0]) && IsTrail(s[1])
  }

  /** A string's characters, with surrogate pairs kept and lone surrogates escaped. */
  function Escape(s: Text): Text {
    if s == [] then []
    else if StartsPair(s) then [s[0], s[1]] + Escape(s[2..])
    else EscapeUnit(s[0]) + Escape(s[1..])
  }

  function StringText(s: Text): Text {
    [QUOTE] + Escape(s) + [QUOTE]
  }

  /** Texts separated by commas, up to a closing bracket. */
  function Listed(texts: seq<Text>, close: CodeUnit): Text {
    if texts == [] then [close] else texts[0] + Further(texts[1..], close)
  }

  function Further(texts: seq<Text>, close: CodeUnit): Text {
    if texts == [] then [close] else [COMMA] + texts[0] + Further(texts[1..], close)
  }

  function TextOf(j: Json): (t: Text) {
    match j
    case Null => NULL_TEXT
    case Bool(on) => if on then TRUE_TEXT else FALSE_TEXT
    case Num(numeral) => numeral
    case Str(s) => StringText(s)
    case Arr(items) => [OPEN_LIST] + Listed(seq(|items|, i requires 0 <= i < |items| => TextOf(items[i])), CLOSE_LIST)
    case Obj(members) =>
      [OPEN_OBJECT] + Listed(
        seq(|members|, i requires 0 <= i < |members| =>
          StringText(members[i].key) + [COLON] + TextOf(members[i].value)), CLOSE_OBJECT)
  }

  // ----- scalars are determined -----

  /** What may follow a value: nothing, a comma or a closing bracket. */
  predicate Delimited(s: Text) {
    s == [] || s[0] in {COMMA, CLOSE_LIST, CLOSE_OBJECT}
  }

  /** A numeral ends where a unit that no number holds follows. */
  lemma {:induction false} NumberDetermined(n: Numeral, s: Text, m: Numeral, t: Text)
    requires n + s == m + t && Delimited(s) && Delimited(t)
    ensures n == m && s == t
  {
    assert forall k :: 0 <= k < |n| ==> (n + s)[k] == n[k] && IsNumberUnit(n[k]);
    assert forall k :: 0 <= k < |m| ==> (m + t)[k] == m[k] && IsNumberUnit(m[k]);
    assert s != [] ==> (n + s)[|n|] == s[0] && !IsNumberUnit(s[0]);
    assert t != [] ==> (m + t)[|m|] == t[0] && !IsNumberUnit(t[0]);
    assert n == (n + s)[..|n|] && m == (m + t)[..|m|];
    assert s == (n + s)[|n|..] && t == (m + t)[|m|..];
  }

  lemma {:induction false} HexDetermined(u: CodeUnit, v: CodeUnit)
    requires HexEscape(u) == HexEscape(v)
    ensures u == v
  {
    var a, b := HexEscape(u), HexEscape(v);
    assert a[2] == b[2] && a[3] == b[3] && a[4] == b[4] && a[5] == b[5];
    OfHexDigits(u);
    OfHexDigits(v);
  }

  lemma {:induction false} OfHexDigits(u: CodeUnit)
    ensures u == 4096 * (u / 4096) + 256 * (u / 256 % 16) + 16 * (u / 16 % 16) + u % 16
  {
    assert u / 16 / 16 == u / 256 && u / 256 / 16 == u / 4096;
    assert u / 16 == 16 * (u / 256) + u / 16 % 16;
    assert u / 256 == 16 * (u / 4096) + u / 256 % 16;
  }

  /** An escaped unit ends where its text says, so it is determined whatever follows. */
  lemma {:induction false} UnitDetermined(u: CodeUnit, s: Text, v: CodeUnit, t: Text)
    requires EscapeUnit(u) + s == EscapeUnit(v) + t
    ensures u == v && s == t
  {
    hide HexEscape;
    var a, b := EscapeUnit(u), EscapeUnit(v);
    HexShape(u);
    HexShape(v);
    assert (a + s)[0] == a[0] && (b + t)[0] == b[0];
    assert |a| > 1 ==> (a + s)[1] == a[1];
    assert |b| > 1 ==> (b + t)[1] == b[1];
    assert |a| == |b|;
    assert a == (a + s)[..|a|] && b == (b + t)[..|b|];
    assert s == (a + s)[|a|..] && t == (b + t)[|b|..];
    if |a| == 6 {
      HexDetermined(u, v);
    }
  }

  lemma {:induction false} HexShape(u: CodeUnit)
    ensures var t := HexEscape(u); |t| == 6 && t[0] == BACKSLASH && t[1] == 117
  {
  }

  lemma {:induction false} EscapeStep(s: Text)
    ensures s == [] ==> Escape(s) == []
    ensures StartsPair(s) ==> Escape(s) == [s[0], s[1]] + Escape(s[2..])
    ensures s != [] && !StartsPair(s) ==> Escape(s) == EscapeUnit(s[0]) + Escape(s[1..])
  {
  }

  lemma {:induction false} StringStart(a: Text, s: Text)
    ensures var p := Escape(a) + [QUOTE] + s;
            && (a == [] <==> p[0] == QUOTE)
            && (a != [] ==> (StartsPair(a) <==> IsLead(p[0])))
            && (StartsPair(a) ==> |p| >= 2 && p[0] == a[0] && p[1] == a[1])
  {
  }

  /** A string ends at the first quote that is not escaped. */
  lemma {:induction false} EscapeDetermined(a: Text, s: Text, b: Text, t: Text)
    requires Escape(a) + [QUOTE] + s == Escape(b) + [QUOTE] + t
    ensures a == b && s == t
    decreases |a|
  {
    hide Escape, EscapeUnit, IsLead, IsTrail;
    EscapeStep(a);
    EscapeStep(b);
    StringStart(a, s);
    StringStart(b, t);
    var p, q := Escape(a) + [QUOTE] + s, Escape(b) + [QUOTE] + t;
    assert a == [] <==> b == [];
    if a == [] {
      assert p[1..] == s && q[1..] == t;
    } else {
      assert a == [a[0]] + a[1..] && b == [b[0]] + b[1..];
      if StartsPair(a) {
        assert StartsPair(b);
        assert p[2..] == Escape(a[2..]) + [QUOTE] + s && q[2..] == Escape(b[2..]) + [QUOTE] + t;
        EscapeDetermined(a[2..], s, b[2..], t);
        assert a == [a[0], a[1]] + a[2..] && b == [b[0], b[1]] + b[2..];
      } else {
        assert p == EscapeUnit(a[0]) + (Escape(a[1..]) + [QUOTE] + s);
        assert q == EscapeUnit(b[0]) + (Escape(b[1..]) + [QUOTE] + t);
        UnitDetermined(a[0], Escape(a[1..]) + [QUOTE] + s, b[0], Escape(b[1..]) + [QUOTE] + t);
        EscapeDetermined(a[1..], s, b[1..], t);
      }
    }
  }

  lemma {:induction false} StringDetermined(a: Text, s: Text, b: Text, t: Text)
    requires StringText(a) + s == StringText(b) + t
    ensures a == b && s == t
  {
    hide Escape;
    assert (StringText(a) + s)[1..] == Escape(a) + [QUOTE] + s;
    assert (StringText(b) + t)[1..] == Escape(b) + [QUOTE] + t;
    EscapeDetermined(a, s, b, t);
  }

  // ----- values are determined -----

  /** The first unit of a value's text tells its kind and is no delimiter. */
  lemma {:induction false} FirstUnit(j: Json)
    ensures TextOf(j) != []
    ensures var u := TextOf(j)[0];
            match j
            case Null => u == 110
            case Bool(on) => u == if on then 116 else 102
            case Num(_) => u == MINUS || IsDigit(u)
            case Str(_) => u == QUOTE
            case Arr(_) => u == OPEN_LIST
            case Obj(_) => u == OPEN_OBJECT
  {
  }

  function ItemTexts(items: seq<Json>): seq<Text> {
    seq(|items|, i requires 0 <= i < |items| => TextOf(items[i]))
  }

  function MemberText(m: Member): Text {
    StringText(m.key) + [COLON] + TextOf(m.value)
  }

  function MemberTexts(members: seq<Member>): seq<Text> {
    seq(|members|, i requires 0 <= i < |members| => MemberText(members[i]))
  }

  lemma {:induction false} ListText(items: seq<Json>)
    ensures TextOf(Arr(items)) == [OPEN_LIST] + Listed(ItemTexts(items), CLOSE_LIST)
  {
  }

  lemma {:induction false} ObjectText(members: seq<Member>)
    ensures TextOf(Obj(members)) == [OPEN_OBJECT] + Listed(MemberTexts(members), CLOSE_OBJECT)
  {
    assert seq(|members|, i requires 0 <= i < |members| =>
      StringText(members[i].key) + [COLON] + TextOf(members[i].value))
        == MemberTexts(members);
  }

  /** What is left of a list before its element `i`, the first of them or a later one. */
  function Rest(texts: seq<Text>, i: nat, close: CodeUnit): Text
    requires i <= |texts|
  {
    if i == 0 then Listed(texts, close) else Further(texts[i..], close)
  }

  lemma {:induction false} RestStep(texts: seq<Text>, i: nat, close: CodeUnit, s: Text)
    requires i < |texts|
    ensures Rest(texts, i, close) + s == (if i == 0 then [] else [COMMA]) + (texts[i] + (Rest(texts, i + 1, close) + s))
    ensures Rest(texts, |texts|, close) + s == [close] + s
  {
    assert texts[i..][1..] == texts[i + 1..];
    assert texts[|texts|..] == [];
  }

  lemma {:induction false} RestEnd(texts: seq<Text>, close: CodeUnit, s: Text)
    ensures Rest(texts, |texts|, close) + s == [close] + s
  {
  }

  /** A list that is over and one that goes on have different texts. */
  lemma {:induction false} EndsDiffer(ended: seq<Text>, texts: seq<Text>, i: nat, close: CodeUnit, s: Text, t: Text)
    requires |ended| == i < |texts| && close in {CLOSE_LIST, CLOSE_OBJECT}
    requires texts[i] != [] && texts[i][0] != close
    ensures Rest(ended, i, close) + s != Rest(texts, i, close) + t
  {
    RestEnd(ended, close, s);
    RestStep(texts, i, close, t);
    assert (Rest(ended, i, close) + s)[0] == close;
    assert (Rest(texts, i, close) + t)[0] == if i == 0 then texts[0][0] else COMMA;
  }

  lemma {:induction false} AfterElement(texts: seq<Text>, i: nat, close: CodeUnit, s: Text)
    requires i < |texts| && close in {CLOSE_LIST, CLOSE_OBJECT}
    ensures Delimited(Rest(texts, i + 1, close) + s)
  {
  }

  /** The text of a value determines it, whatever may follow it. */
  lemma {:induction false} ValueDetermined(a: Json, s: Text, b: Json, t: Text)
    requires TextOf(a) + s == TextOf(b) + t && Delimited(s) && Delimited(t)
    ensures a == b && s == t
    decreases a, 1, 0
  {
    hide TextOf, StringText, Listed, Delimited;
    FirstUnit(a);
    FirstUnit(b);
    ScalarText(a);
    ScalarText(b);
    assert (TextOf(a) + s)[0] == TextOf(a)[0] && (TextOf(b) + t)[0] == TextOf(b)[0];
    match a
    case Null => LiteralsDetermined(a, s, b, t);
    case Bool(_) => LiteralsDetermined(a, s, b, t);
    case Num(numeral) =>
      assert b.Num?;
      NumberDetermined(numeral, s, b.numeral, t);
    case Str(text) =>
      assert b.Str?;
      StringDetermined(text, s, b.text, t);
    case Arr(items) =>
      assert b.Arr?;
      ListText(items);
      ListText(b.items);
      assert (TextOf(a) + s)[1..] == Rest(ItemTexts(items), 0, CLOSE_LIST) + s;
      assert (TextOf(b) + t)[1..] == Rest(ItemTexts(b.items), 0, CLOSE_LIST) + t;
      ItemsDetermined(a, s, b, t, 0);
    case Obj(members) =>
      assert b.Obj?;
      ObjectText(members);
      ObjectText(b.members);
      assert (TextOf(a) + s)[1..] == Rest(MemberTexts(members), 0, CLOSE_OBJECT) + s;
      assert (TextOf(b) + t)[1..] == Rest(MemberTexts(b.members), 0, CLOSE_OBJECT) + t;
      MembersDetermined(a, s, b, t, 0);
  }

  lemma {:induction false} ScalarText(j: Json)
    ensures j.Num? ==> TextOf(j) == j.numeral
    ensures j.Str? ==> TextOf(j) == StringText(j.text)
  {
  }

  lemma {:induction false} LiteralsDetermined(a: Json, s: Text, b: Json, t: Text)
    requires (a.Null? || a.Bool?) && TextOf(a) + s == TextOf(b) + t && TextOf(a) != [] && TextOf(b) != []
    ensures a == b && s == t
  {
    FirstUnit(a);
    FirstUnit(b);
    assert (TextOf(a) + s)[0] == TextOf(a)[0] && (TextOf(b) + t)[0] == TextOf(b)[0];
    assert a == b;
    assert s == (TextOf(a) + s)[|TextOf(a)|..] && t == (TextOf(b) + t)[|TextOf(b)|..];
  }

  lemma {:induction false} ItemsDetermined(a: Json, s: Text, b: Json, t: Text, i: nat)
    requires a.Arr? && b.Arr? && i <= |a.items| && i <= |b.items| && a.items[..i] == b.items[..i]
    requires Rest(ItemTexts(a.items), i, CLOSE_LIST) + s == Rest(ItemTexts(b.items), i, CLOSE_LIST) + t
    ensures a == b && s == t
    decreases a, 0, |a.items| - i
  {
    hide TextOf, Rest;
    var p, q := ItemTexts(a.items), ItemTexts(b.items);
    if i == |a.items| {
      if i < |b.items| {
        FirstUnit(b.items[i]);
        EndsDiffer(p, q, i, CLOSE_LIST, s, t);
      }
      assert i == |b.items|;
      RestEnd(p, CLOSE_LIST, s);
      RestEnd(q, CLOSE_LIST, t);
      assert ([CLOSE_LIST] + s)[1..] == s && ([CLOSE_LIST] + t)[1..] == t;
      assert a.items == a.items[..i] && b.items == b.items[..i];
    } else {
      if i == |b.items| {
        FirstUnit(a.items[i]);
        EndsDiffer(q, p, i, CLOSE_LIST, t, s);
      }
      assert i < |b.items|;
      ElementsMeet(p, s, q, t, i, CLOSE_LIST);
      ValueDetermined(a.items[i], Rest(p, i + 1, CLOSE_LIST) + s, b.items[i], Rest(q, i + 1, CLOSE_LIST) + t);
      assert a.items[..i + 1] == a.items[..i] + [a.items[i]] && b.items[..i + 1] == b.items[..i] + [b.items[i]];
      ItemsDetermined(a, s, b, t, i + 1);
    }
  }

  /** Two lists that agree from element `i` on agree from within that element on. */
  lemma {:induction false} ElementsMeet(p: seq<Text>, s: Text, q: seq<Text>, t: Text, i: nat, close: CodeUnit)
    requires i < |p| && i < |q| && close in {CLOSE_LIST, CLOSE_OBJECT}
    requires Rest(p, i, close) + s == Rest(q, i, close) + t
    ensures p[i] + (Rest(p, i + 1, close) + s) == q[i] + (Rest(q, i + 1, close) + t)
    ensures Delimited(Rest(p, i + 1, close) + s) && Delimited(Rest(q, i + 1, close) + t)
  {
    hide Rest;
    RestStep(p, i, close, s);
    RestStep(q, i, close, t);
    AfterElement(p, i, close, s);
    AfterElement(q, i, close, t);
    var n := if i == 0 then 0 else 1;
    assert (Rest(p, i, close) + s)[n..] == p[i] + (Rest(p, i + 1, close) + s);
    assert (Rest(q, i, close) + t)[n..] == q[i] + (Rest(q, i + 1, close) + t);
  }

  lemma {:induction false} MembersDetermined(a: Json, s: Text, b: Json, t: Text, i: nat)
    requires a.Obj? && b.Obj? && i <= |a.members| && i <= |b.members| && a.members[..i] == b.members[..i]
    requires Rest(MemberTexts(a.members), i, CLOSE_OBJECT) + s == Rest(MemberTexts(b.members), i, CLOSE_OBJECT) + t
    ensures a == b && s == t
    decreases a, 0, |a.members| - i
  {
    hide TextOf, Rest, StringText, Escape;
    var p, q := MemberTexts(a.members), MemberTexts(b.members);
    if i == |a.members| {
      if i < |b.members| {
        MemberStart(b.members[i]);
        EndsDiffer(p, q, i, CLOSE_OBJECT, s, t);
      }
      assert i == |b.members|;
      RestEnd(p, CLOSE_OBJECT, s);
      RestEnd(q, CLOSE_OBJECT, t);
      assert ([CLOSE_OBJECT] + s)[1..] == s && ([CLOSE_OBJECT] + t)[1..] == t;
      assert a.members == a.members[..i] && b.members == b.members[..i];
    } else {
      if i == |b.members| {
        MemberStart(a.members[i]);
        EndsDiffer(q, p, i, CLOSE_OBJECT, t, s);
      }
      assert i < |b.members|;
      ElementsMeet(p, s, q, t, i, CLOSE_OBJECT);
      var m, n := a.members[i], b.members[i];
      var u, v := Rest(p, i + 1, CLOSE_OBJECT) + s, Rest(q, i + 1, CLOSE_OBJECT) + t;
      KeysDetermined(m, u, n, v);
      ValueDetermined(m.value, u, n.value, v);
      assert a.members[..i + 1] == a.members[..i] + [m] && b.members[..i + 1] == b.members[..i] + [n];
      MembersDetermined(a, s, b, t, i + 1);
    }
  }

  lemma {:induction false} MemberStart(m: Member)
    ensures MemberText(m) != [] && MemberText(m)[0] == QUOTE
  {
  }

  lemma {:induction false} KeysDetermined(m: Member, u: Text, n: Member, v: Text)
    requires MemberText(m) + u == MemberText(n) + v
    ensures m.key == n.key && TextOf(m.value) + u == TextOf(n.value) + v
  {
    hide TextOf, StringText;
    var x, y := [COLON] + TextOf(m.value) + u, [COLON] + TextOf(n.value) + v;
    assert MemberText(m) + u == StringText(m.key) + x && MemberText(n) + v == StringText(n.key) + y;
    StringDetermined(m.key, x, n.key, y);
    assert x[1..] == TextOf(m.value) + u && y[1..] == TextOf(n.value) + v;
  }

  /** Two values have the same text only when they are equal, member order included. */
  lemma {:induction false} TextDetermines(a: Json, b: Json)
    requires TextOf(a) == TextOf(b)
    ensures a == b
  {
    assert TextOf(a) + [] == TextOf(b) + [];
    ValueDetermined(a, [], b, []);
  }

  function CanonicalStringify(j: Json): Text {
    TextOf(Canonical(j))
  }

  /** The canonical text is the same for two values exactly when they differ in the order of object members only. */
  lemma {:induction false} CanonicalText(a: Json, b: Json)
    requires WellFormed(a) && WellFormed(b)
    ensures CanonicalStringify(a) == CanonicalStringify(b) <==> SameButForOrder(a, b)
  {
    CanonicalForm(a, b);
    if CanonicalStringify(a) == CanonicalStringify(b) {
      TextDetermines(Canonical(a), Canonical(b));
    }
  }

  // ----- the text by its characters -----

  /** The code units of a text in the basic Latin block. */
  ghost function Units(s: string): Text
    requires forall i :: 0 <= i < |s| ==> s[i] < '\U{80}'
  {
    seq(|s|, i requires 0 <= i < |s| => s[i] as int)
  }

  /** Scalars as they are written. */
  lemma {:induction false} ScalarsAsWritten(j: Json)
    ensures j == Null ==> TextOf(j) == Units("null")
    ensures j == Bool(true) ==> TextOf(j) == Units("true")
    ensures j == Bool(false) ==> TextOf(j) == Units("false")
    ensures j.Num? ==> TextOf(j) == j.numeral
    ensures j.Str? ==> TextOf(j) == Units("\"") + Escape(j.text) + Units("\"")
  {
  }

  /** A list and an object are written between their brackets, with commas between and a colon after each key. */
  lemma {:induction false} ListsAsWritten(items: seq<Json>, last: Json)
    ensures TextOf(Arr([])) == Units("[]")
    ensures TextOf(Arr([last])) == Units("[") + TextOf(last) + Units("]")
    ensures items != [] ==>
              TextOf(Arr(items + [last]))
              == TextOf(Arr(items))[..|TextOf(Arr(items))| - 1] + Units(",") + TextOf(last) + Units("]")
  {
    hide TextOf, Listed;
    ListText([]);
    ListText([last]);
    assert ItemTexts([]) == [] && ItemTexts([last]) == [TextOf(last)];
    ListedAsWritten(ItemTexts(items), TextOf(last), CLOSE_LIST);
    if items != [] {
      ListText(items);
      ListText(items + [last]);
      assert ItemTexts(items + [last]) == ItemTexts(items) + [TextOf(last)];
    }
  }

  lemma {:induction false} ObjectsAsWritten(members: seq<Member>, last: Member)
    ensures TextOf(Obj([])) == Units("{}")
    ensures var text := Units("\"") + Escape(last.key) + Units("\"") + Units(":") + TextOf(last.value);
            && TextOf(Obj([last])) == Units("{") + text + Units("}")
            && (members != [] ==>
                  TextOf(Obj(members + [last]))
                  == TextOf(Obj(members))[..|TextOf(Obj(members))| - 1] + Units(",") + text + Units("}"))
  {
    hide TextOf, Listed, Escape;
    ObjectText([]);
    ObjectText([last]);
    assert MemberTexts([]) == [] && MemberTexts([last]) == [MemberText(last)];
    ListedAsWritten(MemberTexts(members), MemberText(last), CLOSE_OBJECT);
    if members != [] {
      ObjectText(members);
      ObjectText(members + [last]);
      assert MemberTexts(members + [last]) == MemberTexts(members) + [MemberText(last)];
    }
  }

  lemma {:induction false} ListedAsWritten(texts: seq<Text>, last: Text, close: CodeUnit)
    ensures Listed([], close) == [close] && Listed([last], close) == last + [close]
    ensures texts != [] ==> Listed(texts, close) != []
    ensures texts != [] ==>
              Listed(texts + [last], close)
              == Listed(texts, close)[..|Listed(texts, close)| - 1] + [44] + last + [close]
  {
    if texts != [] {
      hide Further;
      FurtherAsWritten(texts[1..], last, close);
      assert (texts + [last])[1..] == texts[1..] + [last];
    }
  }

  lemma {:induction false} FurtherAsWritten(texts: seq<Text>, last: Text, close: CodeUnit)
    ensures Further(texts, close) != []
    ensures Further(texts + [last], close)
         == Further(texts, close)[..|Further(texts, close)| - 1] + [44] + last + [close]
  {
    if texts == [] {
      assert [last][1..] == [];
    } else {
      FurtherAsWritten(texts[1..], last, close);
      assert (texts + [last])[1..] == texts[1..] + [last];
    }
  }

  ghost predicate IsSurrogate(u: CodeUnit, low: bool) {
    if low then 56320 <= u < 57344 else 55296 <= u < 56320
  }

  /** How a unit that stands alone is written. */
  ghost function AsWritten(u: CodeUnit): Text {
    if u == 34 then Units("\\\"")
    else if u == 92 then Units("\\\\")
    else if u == 8 then Units("\\b")
    else if u == 9 then Units("\\t")
    else if u == 10 then Units("\\n")
    else if u == 12 then Units("\\f")
    else if u == 13 then Units("\\r")
    else if u < 32 || IsSurrogate(u, false) || IsSurrogate(u, true)
    then Units("\\u") + [Hex(u / 4096), Hex(u / 256 % 16), Hex(u / 16 % 16), Hex(u % 16)]
    else [u]
  }

  lemma {:induction false} UnitAsWritten(u: CodeUnit)
    ensures EscapeUnit(u) == AsWritten(u)
  {
    hide HexEscape;
    HexAsWritten(u);
  }

  lemma {:induction false} HexAsWritten(u: CodeUnit)
    ensures HexEscape(u) == Units("\\u") + [Hex(u / 4096), Hex(u / 256 % 16), Hex(u / 16 % 16), Hex(u % 16)]
  {
    hide Hex, HexDigit;
    DigitAsWritten(u / 4096);
    DigitAsWritten(u / 256 % 16);
    DigitAsWritten(u / 16 % 16);
    DigitAsWritten(u % 16);
  }

  lemma {:induction false} DigitAsWritten(n: nat)
    requires n < 16
    ensures HexDigit(n) == Hex(n)
  {
  }

  /**
   * How a string is escaped: a surrogate pair is kept; the quote, the backslash and five control characters have an
   * escape of two characters; the other control characters and a surrogate without its partner have one of six, in
   * lower-case hexadecimal; every other unit stands for itself.
   */
  lemma {:induction false} EscapesAsWritten(s: Text)
    ensures Escape([]) == []
    ensures |s| >= 2 && IsSurrogate(s[0], false) && IsSurrogate(s[1], true) ==>
              Escape(s) == s[..2] + Escape(s[2..])
    ensures s != [] && !(|s| >= 2 && IsSurrogate(s[0], false) && IsSurrogate(s[1], true)) ==>
              Escape(s) == AsWritten(s[0]) + Escape(s[1..])
  {
    hide Escape, EscapeUnit;
    EscapeStep([]);
    EscapeStep(s);
    if s != [] {
      UnitAsWritten(s[0]);
    }
    if |s| >= 2 && IsSurrogate(s[0], false) && IsSurrogate(s[1], true) {
      assert s[..2] == [s[0], s[1]];
    }
  }

  ghost function Hex(n: nat): CodeUnit
    requires n < 16
  {
    "0123456789abcdef"[n] as int
  }
}
