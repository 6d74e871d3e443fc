/**
 A strict JSON reader, and the proof that it recovers the canonical form from
 the canonical text.  Strings follow section 7 of RFC 8259: no raw control
 character, no raw quotation mark and no raw reverse solidus is accepted.
 */
module CanonicalReader {
  import opened Prelude
  import opened Json
  import opened CanonicalJson

  datatype Parsed<+T> = Fail | Got(value: T, rest: string)

  // ---------------------------------------------------------------------------
  // The reader
  // ---------------------------------------------------------------------------

  function HexValue(c: char): Option<nat>
  {
    if '0' <= c <= '9' then Some(c as int - '0' as int)
    else if 'a' <= c <= 'f' then Some(c as int - 'a' as int + 10)
    else if 'A' <= c <= 'F' then Some(c as int - 'A' as int + 10)
    else None
  }

  /** Four hexadecimal digits naming a code point outside the surrogate range. */
  function ReadHex4(s: string): (r: Parsed<char>)
    ensures r.Got? ==> |r.rest| < |s|
  {
    if |s| < 4 then Fail else
    match (HexValue(s[0]), HexValue(s[1]), HexValue(s[2]), HexValue(s[3]))
    case (Some(a), Some(b), Some(c), Some(d)) =>
      var code := ((a * 16 + b) * 16 + c) * 16 + d;
      if code < 0xD800 || 0xE000 <= code < 0x10000 then Got(code as char, s[4..]) else Fail
    case _ => Fail
  }

  function ReadEscape(s: string): (r: Parsed<char>)
    ensures r.Got? ==> |r.rest| < |s|
  {
    if s == [] then Fail
    else match s[0]
      case '"' => Got('"', s[1..])
      case '\\' => Got('\\', s[1..])
      case '/' => Got('/', s[1..])
      case 'b' => Got('\U{08}', s[1..])
      case 'f' => Got('\U{0c}', s[1..])
      case 'n' => Got('\n', s[1..])
      case 'r' => Got('\r', s[1..])
      case 't' => Got('\t', s[1..])
      case 'u' => ReadHex4(s[1..])
      case _ => Fail
  }

  /** The characters of a string after its opening quotation mark. */
  function ReadChars(s: string): (r: Parsed<string>)
    ensures r.Got? ==> |r.rest| < |s|
    decreases |s|
  {
    if s == [] then Fail
    else if s[0] == '"' then Got([], s[1..])
    else if s[0] < '\U{20}' then Fail
    else
      var head := if s[0] == '\\' then ReadEscape(s[1..]) else Got(s[0], s[1..]);
      if head.Fail? then Fail else
      var tail := ReadChars(head.rest);
      if tail.Fail? then Fail else Got([head.value] + tail.value, tail.rest)
  }

  function NumberRun(s: string): (n: nat)
    ensures n <= |s|
  {
    if s != [] && IsNumberChar(s[0]) then 1 + NumberRun(s[1..]) else 0
  }

  predicate AllDigits(t: string)
  {
    forall i :: 0 <= i < |t| ==> '0' <= t[i] <= '9'
  }

  function ReadInteger(t: string): Option<int>
  {
    if t == [] then None
    else if t[0] == '-' then
      if |t| > 1 && AllDigits(t[1..]) then var v: int := DigitsValue(t[1..]); Some(-v) else None
    else if AllDigits(t) then var v: int := DigitsValue(t); Some(v)
    else None
  }

  /** A number of section 6 of RFC 8259. */
  function ReadNumber(t: string): Option<Number>
  {
    if !IsNumberText(t) then None
    else if HasFraction(t) then Some(Decimal(t))
    else match ReadInteger(t)
      case Some(i) => Some(Integer(i))
      case None => None
  }

  function ReadValue(s: string): (r: Parsed<Tree>)
    ensures r.Got? ==> |r.rest| < |s|
    decreases |s|, 2
  {
    if s == [] then Fail
    else if "null" <= s then Got(TNull, s[4..])
    else if "true" <= s then Got(TBool(true), s[4..])
    else if "false" <= s then Got(TBool(false), s[5..])
    else if s[0] == '"' then
      match ReadChars(s[1..])
      case Got(v, rest) => Got(TStr(v), rest)
      case Fail => Fail
    else if s[0] == '[' then
      if |s| > 1 && s[1] == ']' then Got(TArr([]), s[2..])
      else match ReadItems(s[1..])
        case Got(items, rest) => Got(TArr(items), rest)
        case Fail => Fail
    else if s[0] == '{' then
      if |s| > 1 && s[1] == '}' then Got(TObj([]), s[2..])
      else match ReadMembers(s[1..])
        case Got(ms, rest) => Got(TObj(ms), rest)
        case Fail => Fail
    else
      var n := NumberRun(s);
      match ReadNumber(s[..n])
      case Some(v) => if n == 0 then Fail else Got(TNum(v), s[n..])
      case None => Fail
  }

  function ReadItems(s: string): (r: Parsed<seq<Tree>>)
    ensures r.Got? ==> |r.rest| < |s|
    decreases |s|, 3
  {
    match ReadValue(s)
    case Fail => Fail
    case Got(v, rest) =>
      if rest == [] then Fail
      else if rest[0] == ']' then Got([v], rest[1..])
      else if rest[0] != ',' then Fail
      else match ReadItems(rest[1..])
        case Got(vs, after) => Got([v] + vs, after)
        case Fail => Fail
  }

  function ReadMembers(s: string): (r: Parsed<seq<Keyed<Tree>>>)
    ensures r.Got? ==> |r.rest| < |s|
    decreases |s|, 3
  {
    if s == [] || s[0] != '"' then Fail else
    match ReadChars(s[1..])
    case Fail => Fail
    case Got(k, colon) =>
      if colon == [] || colon[0] != ':' then Fail else
      match ReadValue(colon[1..])
      case Fail => Fail
      case Got(v, rest) =>
        if rest == [] then Fail
        else if rest[0] == '}' then Got([Keyed(k, v)], rest[1..])
        else if rest[0] != ',' then Fail
        else match ReadMembers(rest[1..])
          case Got(ms, after) => Got([Keyed(k, v)] + ms, after)
          case Fail => Fail
  }

  // ---------------------------------------------------------------------------
  // Strings: section 7 of RFC 8259
  // ---------------------------------------------------------------------------

  function Prepend(c: char, r: Parsed<string>): Parsed<string>
  {
    match r
    case Got(v, after) => Got([c] + v, after)
    case Fail => Fail
  }

  lemma {:induction false} ReadPlainChar(c: char, rest: string)
    requires c >= '\U{20}' && c != '"' && c != '\\'
    ensures ReadChars([c] + rest) == Prepend(c, ReadChars(rest))
  {
    assert ([c] + rest)[1..] == rest;
  }

  lemma {:induction false} ReadBackslash(c: char, tail: string, rest: string)
    requires ReadEscape(tail) == Got(c, rest)
    ensures ReadChars(['\\'] + tail) == Prepend(c, ReadChars(rest))
  {
    assert (['\\'] + tail)[1..] == tail;
  }

  lemma {:induction false} ReadControl(c: char, rest: string)
    requires c < '\U{20}'
    ensures ReadEscape("u00" + [HEX[c as int / 16], HEX[c as int % 16]] + rest) == Got(c, rest)
  {
    var code := c as int;
    HexDigit(code / 16);
    HexDigit(code % 16);
    var tail := "u00" + [HEX[code / 16], HEX[code % 16]] + rest;
    assert tail[1..][4..] == rest;
  }

  lemma {:induction false} ReadEscapedChar(c: char, rest: string)
    ensures ReadChars(EscapeChar(c) + rest) == Prepend(c, ReadChars(rest))
  {
    var e := EscapeChar(c);
    if |e| == 1 {
      ReadPlainChar(c, rest);
    } else {
      var tail := e[1..] + rest;
      assert e + rest == ['\\'] + tail;
      if |e| == 2 {
        assert tail[1..] == rest;
      } else {
        ReadControl(c, rest);
        assert tail == "u00" + [HEX[c as int / 16], HEX[c as int % 16]] + rest;
      }
      ReadBackslash(c, tail, rest);
    }
  }

  lemma {:induction false} HexDigit(d: nat)
    requires d < 16
    ensures HexValue(HEX[d]) == Some(d)
  {
    assert HEX[0] == '0' && HEX[1] == '1' && HEX[2] == '2' && HEX[3] == '3' && HEX[4] == '4';
    assert HEX[5] == '5' && HEX[6] == '6' && HEX[7] == '7' && HEX[8] == '8' && HEX[9] == '9';
    assert HEX[10] == 'a' && HEX[11] == 'b' && HEX[12] == 'c' && HEX[13] == 'd' && HEX[14] == 'e';
    assert HEX[15] == 'f';
  }

  /** Every printed string is a string of RFC 8259, and reading it gives the string back. */
  lemma {:induction false} ReadQuoted(s: string, rest: string)
    ensures ReadChars(Escape(s) + "\"" + rest) == Got(s, rest)
  {
    if s == [] {
      assert (Escape(s) + "\"" + rest)[1..] == rest;
    } else {
      ReadQuoted(s[1..], rest);
      ReadEscapedChar(s[0], Escape(s[1..]) + "\"" + rest);
      assert Escape(s) + "\"" + rest == EscapeChar(s[0]) + (Escape(s[1..]) + "\"" + rest);
      assert s == [s[0]] + s[1..];
    }
  }

  // ---------------------------------------------------------------------------
  // Numbers
  // ---------------------------------------------------------------------------

  predicate StopsNumber(rest: string)
  {
    rest == [] || !IsNumberChar(rest[0])
  }

  lemma {:induction false} RunOfNumber(t: string, rest: string)
    requires forall i :: 0 <= i < |t| ==> IsNumberChar(t[i])
    requires StopsNumber(rest)
    ensures NumberRun(t + rest) == |t|
  {
    if t == [] {
      assert t + rest == rest;
    } else {
      RunOfNumber(t[1..], rest);
      assert (t + rest)[1..] == t[1..] + rest;
    }
  }

  lemma {:induction false} ReadIntegerText(i: int)
    ensures ReadInteger(NumberText(Integer(i))) == Some(i)
  {
    if i < 0 {
      DigitsOfNatText(-i);
      assert NumberText(Integer(i))[1..] == NatText(-i);
    } else {
      DigitsOfNatText(i);
    }
  }

  lemma {:induction false} IntegerTextChars(i: int)
    ensures var t := NumberText(Integer(i));
            |t| > 0 && forall k :: 0 <= k < |t| ==> t[k] == '-' || '0' <= t[k] <= '9'
  {
  }

  lemma {:induction false} NoFractionIn(t: string)
    requires forall k :: 0 <= k < |t| ==> t[k] == '-' || '0' <= t[k] <= '9'
    ensures !HasFraction(t)
  {
  }

  lemma {:induction false} ReadWhole(t: string, i: int)
    requires IsNumberText(t) && !HasFraction(t) && ReadInteger(t) == Some(i)
    ensures ReadNumber(t) == Some(Integer(i))
  {
  }

  lemma {:induction false} ReadWholeText(i: int, t: string)
    requires t == NumberText(Integer(i))
    ensures ReadNumber(t) == Some(Integer(i))
  {
    IntegerTextChars(i);
    NoFractionIn(t);
    IntegerIsNumberText(i);
    ReadIntegerText(i);
    ReadWhole(t, i);
  }

  lemma {:induction false} ReadNumberText(n: Number)
    requires ValidNumber(n)
    ensures ReadNumber(NumberText(n)) == Some(n)
    ensures |NumberText(n)| > 0
    ensures forall i :: 0 <= i < |NumberText(n)| ==> IsNumberChar(NumberText(n)[i])
  {
    if n.Integer? {
      ReadWholeText(n.i, NumberText(n));
      IntegerTextChars(n.i);
    } else {
      NumberTextChars(n.text);
    }
  }

  /** The reader accepts exactly the number texts of the grammar. */
  lemma {:induction false} ReadsExactlyNumbers(t: string)
    ensures ReadNumber(t).Some? <==> IsNumberText(t)
  {
    if IsNumberText(t) && !HasFraction(t) {
      PlainNumber(t);
      IntIsDigits(SkipMinus(t));
    }
  }

  lemma {:induction false} ReadRun(s: string, n: nat, v: Number)
    requires s != [] && IsNumberChar(s[0]) && NumberRun(s) == n && n > 0 && ReadNumber(s[..n]) == Some(v)
    ensures ReadValue(s) == Got(TNum(v), s[n..])
  {
    FirstCharDecides(s);
  }

  lemma {:induction false} ReadPrintedNumber(n: Number, rest: string)
    requires ValidNumber(n) && StopsNumber(rest)
    ensures ReadValue(NumberText(n) + rest) == Got(TNum(n), rest)
  {
    var t := NumberText(n);
    ReadNumberText(n);
    RunOfNumber(t, rest);
    SplitAt(t, rest);
    ReadRun(t + rest, |t|, n);
  }

  lemma {:induction false} SplitAt(t: string, rest: string)
    ensures (t + rest)[..|t|] == t && (t + rest)[|t|..] == rest
  {
  }

  lemma {:induction false} FirstCharDecides(s: string)
    requires s != []
    ensures "null" <= s ==> s[0] == 'n'
    ensures "true" <= s ==> s[0] == 't'
    ensures "false" <= s ==> s[0] == 'f'
  {
  }

  // ---------------------------------------------------------------------------
  // Values
  // ---------------------------------------------------------------------------

  lemma {:induction false} ReadLiterals(rest: string)
    ensures ReadValue("null" + rest) == Got(TNull, rest)
    ensures ReadValue("true" + rest) == Got(TBool(true), rest)
    ensures ReadValue("false" + rest) == Got(TBool(false), rest)
  {
    FirstCharDecides("null" + rest);
    FirstCharDecides("true" + rest);
    FirstCharDecides("false" + rest);
    assert ("null" + rest)[4..] == rest && ("true" + rest)[4..] == rest && ("false" + rest)[5..] == rest;
  }

  lemma {:induction false} ReadPrintedString(v: string, rest: string)
    ensures ReadValue(Quote(v) + rest) == Got(TStr(v), rest)
  {
    ReadQuoted(v, rest);
    QuoteTail(v, rest);
    FirstCharDecides(Quote(v) + rest);
  }

  lemma {:induction false} ReadArray(body: string)
    ensures ReadValue("[" + ("]" + body)) == Got(TArr([]), body)
    ensures ReadItems(body).Got? && body != [] && body[0] != ']' ==>
              ReadValue("[" + body) == Got(TArr(ReadItems(body).value), ReadItems(body).rest)
  {
    FirstCharDecides("[" + body);
    FirstCharDecides("[" + ("]" + body));
    assert ("[" + body)[1..] == body;
    assert ("[" + ("]" + body))[2..] == body;
  }

  lemma {:induction false} ReadObject(body: string)
    ensures ReadValue("{" + ("}" + body)) == Got(TObj([]), body)
    ensures ReadMembers(body).Got? && body != [] && body[0] != '}' ==>
              ReadValue("{" + body) == Got(TObj(ReadMembers(body).value), ReadMembers(body).rest)
  {
    FirstCharDecides("{" + body);
    FirstCharDecides("{" + ("}" + body));
    assert ("{" + body)[1..] == body;
    assert ("{" + ("}" + body))[2..] == body;
  }

  lemma {:induction false} ReadLastItem(s: string, v: Tree, rest: string)
    requires ReadValue(s) == Got(v, "]" + rest)
    ensures ReadItems(s) == Got([v], rest)
  {
    assert ("]" + rest)[1..] == rest;
  }

  lemma {:induction false} ReadNextItem(s: string, v: Tree, tail: string)
    requires ReadValue(s) == Got(v, "," + tail) && ReadItems(tail).Got?
    ensures ReadItems(s) == Got([v] + ReadItems(tail).value, ReadItems(tail).rest)
  {
    assert ("," + tail)[1..] == tail;
  }

  lemma {:induction false} ReadLastMember(s: string, k: string, value: string, v: Tree, rest: string)
    requires s != [] && s[0] == '"' && ReadChars(s[1..]) == Got(k, ":" + value)
    requires ReadValue(value) == Got(v, "}" + rest)
    ensures ReadMembers(s) == Got([Keyed(k, v)], rest)
  {
    assert (":" + value)[1..] == value;
    assert ("}" + rest)[1..] == rest;
  }

  lemma {:induction false} ReadNextMember(s: string, k: string, value: string, v: Tree, tail: string)
    requires s != [] && s[0] == '"' && ReadChars(s[1..]) == Got(k, ":" + value)
    requires ReadValue(value) == Got(v, "," + tail) && ReadMembers(tail).Got?
    ensures ReadMembers(s) == Got([Keyed(k, v)] + ReadMembers(tail).value, ReadMembers(tail).rest)
  {
    assert (":" + value)[1..] == value;
    assert ("," + tail)[1..] == tail;
  }

  /** Reading a canonical text gives the canonical form and consumes exactly that text. */
  lemma {:induction false} ReadPrinted(t: Tree, rest: string)
    requires WellFormed(t) && StopsNumber(rest)
    ensures ReadValue(Print(t) + rest) == Got(Canonicalize(t), rest)
    decreases t, 1, 0
  {
    match t
    case TNull => ReadLiterals(rest);
    case TBool(b) => ReadLiterals(rest);
    case TNum(n) => ReadPrintedNumber(n, rest);
    case TStr(v) => ReadPrintedString(v, rest);
    case TArr(items) => ReadPrintedArray(items, rest);
    case TObj(ms) => ReadPrintedObject(ms, rest);
  }

  lemma {:induction false} Enclosed(open: string, body: string, close: string, rest: string)
    ensures ((open + body) + close) + rest == open + (body + (close + rest))
  {
    Associative(open + body, close, rest);
    Associative(open, body, close + rest);
  }

  lemma {:induction false} ReadPrintedArray(items: seq<Tree>, rest: string)
    requires WellFormed(TArr(items))
    ensures ReadValue(Print(TArr(items)) + rest) == Got(Canonicalize(TArr(items)), rest)
    decreases TArr(items), 0, |items| + 1
  {
    var s := Print(TArr(items)) + rest;
    if items == [] {
      assert s == "[" + ("]" + rest);
      ReadArray(rest);
    } else {
      var body := ItemsText(items, rest);
      Enclosed("[", Joined(PrintItems(items), false), "]", rest);
      ReadPrintedItems(TArr(items), items, rest);
      ItemsTextHead(items, rest);
      ReadArray(body);
    }
  }

  lemma {:induction false} ReadPrintedObject(ms: seq<Keyed<Tree>>, rest: string)
    requires WellFormed(TObj(ms))
    ensures ReadValue(Print(TObj(ms)) + rest) == Got(Canonicalize(TObj(ms)), rest)
    decreases TObj(ms), 0, |ms| + 1
  {
    var s := Print(TObj(ms)) + rest;
    var sorted := SortByKey(ms);
    SortMembers(ms);
    MembersOfSorted(ms);
    if ms == [] {
      assert s == "{" + ("}" + rest);
      ReadObject(rest);
    } else {
      var body := MembersText(sorted, rest);
      Enclosed("{", Joined(MemberTexts(PrintMembers(sorted)), false), "}", rest);
      forall i | 0 <= i < |sorted| ensures sorted[i].value < TObj(ms) && WellFormed(sorted[i].value) {
        assert sorted[i] in ms;
        var j :| 0 <= j < |ms| && ms[j] == sorted[i];
      }
      ReadPrintedMembers(TObj(ms), sorted, rest);
      MembersTextHead(sorted, rest);
      ReadObject(body);
    }
  }

  lemma {:induction false} PrintNonEmpty(t: Tree)
    requires WellFormed(t)
    ensures |Print(t)| > 0 && Print(t)[0] != ']'
  {
    if t.TNum? { ReadNumberText(t.n); assert IsNumberChar(Print(t)[0]); }
  }

  /** Printing and canonicalizing members commute with sorting them. */
  lemma {:induction false} MembersOfSorted(ms: seq<Keyed<Tree>>)
    ensures SortByKey(PrintMembers(ms)) == PrintMembers(SortByKey(ms))
    ensures SortByKey(CanonicalMembers(ms)) == CanonicalMembers(SortByKey(ms))
  {
    var toText := (x: Tree) => Print(x);
    var toForm := (x: Tree) => Canonicalize(x);
    SortMap(toText, ms);
    SortMap(toForm, ms);
    assert MapValues(toText, ms) == PrintMembers(ms);
    assert MapValues(toForm, ms) == CanonicalMembers(ms);
    assert MapValues(toText, SortByKey(ms)) == PrintMembers(SortByKey(ms));
    assert MapValues(toForm, SortByKey(ms)) == CanonicalMembers(SortByKey(ms));
  }

  // The text of array items up to and past the closing bracket, and likewise for members.

  function ItemsText(items: seq<Tree>, rest: string): string
  {
    Joined(PrintItems(items), false) + ("]" + rest)
  }

  function MembersText(ms: seq<Keyed<Tree>>, rest: string): string
  {
    Joined(MemberTexts(PrintMembers(ms)), false) + ("}" + rest)
  }

  lemma {:induction false} JoinedHead(texts: seq<string>, close: string)
    requires texts != []
    ensures Joined(texts, false) + close ==
            texts[0] + (if |texts| == 1 then close else "," + (Joined(texts[1..], false) + close))
  {
    var others := texts[1..];
    JoinedUnfold(texts);
    if |texts| == 1 {
      assert Joined(texts, false) == texts[0] + [];
    } else {
      JoinedUnfold(others);
      Associative(texts[0], Joined(others, true), close);
      Associative(",", Joined(others, false), close);
    }
  }

  lemma {:induction false} JoinedUnfold(texts: seq<string>)
    requires texts != []
    ensures Joined(texts, false) == texts[0] + Joined(texts[1..], true)
    ensures Joined(texts, true) == "," + Joined(texts, false)
  {
    var tail := Joined(texts[1..], true);
    assert "" + texts[0] == texts[0];
    Associative(",", texts[0], tail);
  }

  lemma {:induction false} Associative(a: string, b: string, c: string)
    ensures (a + b) + c == a + (b + c)
  {
  }

  lemma {:induction false} ItemsTextHead(items: seq<Tree>, rest: string)
    requires items != [] && WellFormed(items[0])
    ensures ItemsText(items, rest) ==
            Print(items[0]) + (if |items| == 1 then "]" + rest else "," + ItemsText(items[1..], rest))
    ensures ItemsText(items, rest) != [] && ItemsText(items, rest)[0] != ']'
  {
    JoinedHead(PrintItems(items), "]" + rest);
    assert PrintItems(items)[1..] == PrintItems(items[1..]);
    PrintNonEmpty(items[0]);
  }

  lemma {:induction false} MembersTextHead(ms: seq<Keyed<Tree>>, rest: string)
    requires ms != []
    ensures MembersText(ms, rest) ==
            MemberText(Keyed(ms[0].key, Print(ms[0].value))) +
            (if |ms| == 1 then "}" + rest else "," + MembersText(ms[1..], rest))
    ensures MembersText(ms, rest) != [] && MembersText(ms, rest)[0] == '"'
  {
    JoinedHead(MemberTexts(PrintMembers(ms)), "}" + rest);
    assert MemberTexts(PrintMembers(ms))[1..] == MemberTexts(PrintMembers(ms[1..]));
    assert MemberText(Keyed(ms[0].key, Print(ms[0].value)))[0] == '"';
  }

  lemma {:induction false} ReadPrintedItems(whole: Tree, items: seq<Tree>, rest: string)
    requires items != []
    requires forall i :: 0 <= i < |items| ==> items[i] < whole && WellFormed(items[i])
    ensures ReadItems(ItemsText(items, rest)) == Got(CanonicalItems(items), rest)
    decreases whole, 0, |items|
  {
    var s := ItemsText(items, rest);
    ItemsTextHead(items, rest);
    if |items| == 1 {
      ReadPrinted(items[0], "]" + rest);
      ReadLastItem(s, Canonicalize(items[0]), rest);
      assert CanonicalItems(items) == [Canonicalize(items[0])];
    } else {
      var tail := ItemsText(items[1..], rest);
      ReadPrinted(items[0], "," + tail);
      ReadPrintedItems(whole, items[1..], rest);
      ReadNextItem(s, Canonicalize(items[0]), tail);
    }
  }

  lemma {:induction false} ReadPrintedMembers(whole: Tree, ms: seq<Keyed<Tree>>, rest: string)
    requires ms != []
    requires forall i :: 0 <= i < |ms| ==> ms[i].value < whole && WellFormed(ms[i].value)
    ensures ReadMembers(MembersText(ms, rest)) == Got(CanonicalMembers(ms), rest)
    decreases whole, 0, |ms|
  {
    var s := MembersText(ms, rest);
    var m := ms[0];
    MembersTextHead(ms, rest);
    if |ms| == 1 {
      MemberSplit(m.key, Print(m.value), "}" + rest);
      ReadPrinted(m.value, "}" + rest);
      ReadLastMember(s, m.key, Print(m.value) + ("}" + rest), Canonicalize(m.value), rest);
      assert CanonicalMembers(ms) == [Keyed(m.key, Canonicalize(m.value))];
    } else {
      var tail := MembersText(ms[1..], rest);
      MemberSplit(m.key, Print(m.value), "," + tail);
      ReadPrinted(m.value, "," + tail);
      ReadPrintedMembers(whole, ms[1..], rest);
      ReadNextMember(s, m.key, Print(m.value) + ("," + tail), Canonicalize(m.value), tail);
    }
  }

  lemma {:induction false} QuoteTail(k: string, rest: string)
    ensures Quote(k) + rest == ['"'] + (Escape(k) + "\"" + rest)
    ensures (Quote(k) + rest)[1..] == Escape(k) + "\"" + rest
  {
    var body := Escape(k) + "\"";
    Associative("\"", Escape(k), "\"");
    Associative("\"", body, rest);
  }

  lemma {:induction false} MemberSplit(k: string, v: string, tail: string)
    ensures var s := MemberText(Keyed(k, v)) + tail;
            s != [] && s[0] == '"' && ReadChars(s[1..]) == Got(k, ":" + (v + tail))
  {
    var s := MemberText(Keyed(k, v)) + tail;
    var value := ":" + (v + tail);
    ReadQuoted(k, value);
    QuoteTail(k, value);
    Associative(Quote(k) + ":", v, tail);
    Associative(Quote(k), ":", v + tail);
  }
}
