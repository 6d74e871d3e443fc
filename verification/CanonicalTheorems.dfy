/** What the canonical text guarantees: it is a faithful, order-independent name of a JSON value. */
module CanonicalTheorems {
  import opened Prelude
  import opened Json
  import opened CanonicalJson
  import opened CanonicalReader

  // ---------------------------------------------------------------------------
  // Canonicalization keeps the meaning, and equal meanings have one canonical form
  // ---------------------------------------------------------------------------

  lemma {:induction false} AscendingDistinct<T>(ms: seq<Keyed<T>>)
    requires Ascending(Keys(ms))
    ensures DistinctKeys(ms)
  {
    forall i, j | 0 <= i < j < |ms| ensures ms[i].key != ms[j].key {
      LessAsymmetric(Keys(ms)[i], Keys(ms)[j]);
    }
  }

  /** The members of the canonical object: where each one comes from. */
  lemma {:induction false} CanonicalMemberAt(ms: seq<Keyed<Tree>>, i: nat) returns (j: nat)
    requires DistinctKeys(ms) && i < |SortByKey(CanonicalMembers(ms))|
    ensures j < |ms|
    ensures SortByKey(CanonicalMembers(ms))[i] == Keyed(ms[j].key, Canonicalize(ms[j].value))
    ensures DenoteMembers(ms)[ms[j].key] == Denote(ms[j].value)
  {
    var cs := CanonicalMembers(ms);
    SortMembers(cs);
    assert SortByKey(cs)[i] in SortByKey(cs);
    j :| 0 <= j < |cs| && cs[j] == SortByKey(cs)[i];
    DenoteMemberAt(ms, j);
  }

  lemma {:induction false} CanonicalKeys(ms: seq<Keyed<Tree>>)
    requires DistinctKeys(ms)
    ensures var r := Keys(SortByKey(CanonicalMembers(ms)));
            Ascending(r) && forall k :: k in r <==> k in DenoteMembers(ms)
  {
    var cs := CanonicalMembers(ms);
    SortAscending(cs);
    SortKeys(cs);
    forall k ensures k in Keys(SortByKey(cs)) <==> k in DenoteMembers(ms) {
      assert Keys(cs) == Keys(ms);
    }
  }

  lemma {:induction false} DenotedValue(ms: seq<Keyed<Tree>>, m: map<string, Json>, k: string)
    requires DistinctKeys(ms) && k in m && k in Keys(ms)
    requires forall i :: 0 <= i < |ms| && ms[i].key == k ==> m[k] == Denote(ms[i].value)
    ensures DenoteMembers(ms)[k] == m[k]
  {
    var i :| 0 <= i < |Keys(ms)| && Keys(ms)[i] == k;
    DenoteMemberAt(ms, i);
  }

  lemma {:induction false} DenoteMembersIs(ms: seq<Keyed<Tree>>, m: map<string, Json>)
    requires DistinctKeys(ms)
    requires forall k :: k in m <==> k in Keys(ms)
    requires forall i :: 0 <= i < |ms| ==> ms[i].key in m && m[ms[i].key] == Denote(ms[i].value)
    ensures DenoteMembers(ms) == m
  {
    forall k | k in m ensures DenoteMembers(ms)[k] == m[k] {
      DenotedValue(ms, m, k);
    }
    assert DenoteMembers(ms).Keys == m.Keys;
  }

  /** Canonicalizing changes neither the value nor its well-formedness. */
  lemma {:induction false} CanonicalizeKeepsValue(t: Tree)
    requires WellFormed(t)
    ensures WellFormed(Canonicalize(t)) && Denote(Canonicalize(t)) == Denote(t)
    decreases t, 1
  {
    match t
    case TArr(items) =>
      forall i | 0 <= i < |items|
        ensures WellFormed(Canonicalize(items[i])) && Denote(Canonicalize(items[i])) == Denote(items[i])
      {
        CanonicalizeKeepsValue(items[i]);
      }
      assert DenoteItems(CanonicalItems(items)) == DenoteItems(items);
    case TObj(ms) => CanonicalObjectKeepsValue(ms);
    case _ =>
  }

  lemma {:induction false} CanonicalObjectKeepsValue(ms: seq<Keyed<Tree>>)
    requires WellFormed(TObj(ms))
    ensures WellFormed(Canonicalize(TObj(ms))) && Denote(Canonicalize(TObj(ms))) == Denote(TObj(ms))
    decreases TObj(ms), 0
  {
    var rs := SortByKey(CanonicalMembers(ms));
    CanonicalKeys(ms);
    AscendingDistinct(rs);
    forall i | 0 <= i < |rs|
      ensures WellFormed(rs[i].value)
      ensures rs[i].key in DenoteMembers(ms) && DenoteMembers(ms)[rs[i].key] == Denote(rs[i].value)
    {
      var j := CanonicalMemberAt(ms, i);
      CanonicalizeKeepsValue(ms[j].value);
    }
    DenoteMembersIs(rs, DenoteMembers(ms));
  }

  /** Values that differ only in member order have the same canonical form. */
  lemma {:induction false} CanonicalFormUnique(a: Tree, b: Tree)
    requires WellFormed(a) && WellFormed(b) && Denote(a) == Denote(b)
    ensures Canonicalize(a) == Canonicalize(b)
  {
    match a
    case TArr(items) =>
      var others := b.items;
      assert DenoteItems(items) == DenoteItems(others);
      forall i | 0 <= i < |items| ensures Canonicalize(items[i]) == Canonicalize(others[i]) {
        assert DenoteItems(items)[i] == DenoteItems(others)[i];
        CanonicalFormUnique(items[i], others[i]);
      }
      assert CanonicalItems(items) == CanonicalItems(others);
    case TObj(ms) =>
      var ns := b.members;
      var rs, qs := SortByKey(CanonicalMembers(ms)), SortByKey(CanonicalMembers(ns));
      CanonicalKeys(ms);
      CanonicalKeys(ns);
      AscendingUnique(Keys(rs), Keys(qs));
      assert |rs| == |Keys(rs)| == |Keys(qs)| == |qs|;
      forall i | 0 <= i < |rs| ensures rs[i] == qs[i] {
        assert Keys(rs)[i] == Keys(qs)[i];
        var j := CanonicalMemberAt(ms, i);
        var k := CanonicalMemberAt(ns, i);
        CanonicalFormUnique(ms[j].value, ns[k].value);
      }
    case _ =>
  }

  /** Two values have one canonical form exactly when they differ at most in member order. */
  lemma {:induction false} CanonicalFormIdentifies(a: Tree, b: Tree)
    requires WellFormed(a) && WellFormed(b)
    ensures Canonicalize(a) == Canonicalize(b) <==> Denote(a) == Denote(b)
  {
    CanonicalizeKeepsValue(a);
    CanonicalizeKeepsValue(b);
    if Denote(a) == Denote(b) { CanonicalFormUnique(a, b); }
  }

  lemma {:induction false} CanonicalizeIdempotent(t: Tree)
    requires WellFormed(t)
    ensures Canonicalize(Canonicalize(t)) == Canonicalize(t)
  {
    CanonicalizeKeepsValue(t);
    CanonicalFormUnique(Canonicalize(t), t);
  }

  lemma {:induction false} CanonicalizeKeepsText(t: Tree)
    requires WellFormed(t)
    ensures Print(Canonicalize(t)) == Print(t)
  {
    match t
    case TArr(items) =>
      forall i | 0 <= i < |items| ensures Print(Canonicalize(items[i])) == Print(items[i]) {
        CanonicalizeKeepsText(items[i]);
      }
      assert PrintItems(CanonicalItems(items)) == PrintItems(items);
    case TObj(ms) =>
      forall i | 0 <= i < |ms| ensures Print(Canonicalize(ms[i].value)) == Print(ms[i].value) {
        CanonicalizeKeepsText(ms[i].value);
      }
      var cs := CanonicalMembers(ms);
      assert PrintMembers(cs) == PrintMembers(ms);
      MembersOfSorted(cs);
      SortAscending(PrintMembers(ms));
      SortSorted(SortByKey(PrintMembers(ms)));
    case _ =>
  }

  // ---------------------------------------------------------------------------
  // The main theorem
  // ---------------------------------------------------------------------------

  lemma {:induction false} ReadBack(t: Tree)
    requires WellFormed(t)
    ensures ReadValue(Print(t)) == Got(Canonicalize(t), "")
  {
    ReadPrinted(t, "");
    assert Print(t) + "" == Print(t);
  }

  /** Two trees print alike exactly when they are the same value up to object key order. */
  lemma {:induction false} PrintUnambiguous(a: Tree, b: Tree)
    requires WellFormed(a) && WellFormed(b)
    ensures Print(a) == Print(b) <==> Denote(a) == Denote(b)
  {
    if Print(a) == Print(b) {
      ReadBack(a);
      ReadBack(b);
      CanonicalizeKeepsValue(a);
      CanonicalizeKeepsValue(b);
    }
    if Denote(a) == Denote(b) {
      CanonicalFormUnique(a, b);
      CanonicalizeKeepsText(a);
      CanonicalizeKeepsText(b);
    }
  }

  // ---------------------------------------------------------------------------
  // The canonical text of a value
  // ---------------------------------------------------------------------------

  ghost predicate ValidJson(v: Json)
  {
    match v
    case Num(n) => ValidNumber(n)
    case Arr(items) => forall i :: 0 <= i < |items| ==> ValidJson(items[i])
    case Obj(m) => forall k :: k in m ==> ValidJson(m[k])
    case _ => true
  }

  /** One way to lay a value out in memory. */
  function Layout(v: Json): Tree
    decreases v, 0
  {
    match v
    case Null => TNull
    case Bool(b) => TBool(b)
    case Num(n) => TNum(n)
    case Str(s) => TStr(s)
    case Arr(items) => TArr(seq(|items|, i requires 0 <= i < |items| => Layout(items[i])))
    case Obj(m) =>
      var ks := SortedKeys(m.Keys);
      TObj(seq(|ks|, i requires 0 <= i < |ks| => (assert ks[i] in m; Keyed(ks[i], Layout(m[ks[i]])))))
  }

  lemma {:induction false} LayoutDenotes(v: Json)
    requires ValidJson(v)
    ensures WellFormed(Layout(v)) && Denote(Layout(v)) == v
    decreases v, 1
  {
    match v
    case Arr(items) =>
      forall i | 0 <= i < |items| ensures WellFormed(Layout(items[i])) && Denote(Layout(items[i])) == items[i] {
        LayoutDenotes(items[i]);
      }
      assert DenoteItems(Layout(v).items) == items;
    case Obj(m) => LayoutObjectDenotes(m);
    case _ =>
  }

  lemma {:induction false} LayoutObjectDenotes(m: map<string, Json>)
    requires ValidJson(Obj(m))
    ensures WellFormed(Layout(Obj(m))) && Denote(Layout(Obj(m))) == Obj(m)
    decreases Obj(m), 0
  {
    var ks := SortedKeys(m.Keys);
    var ms := Layout(Obj(m)).members;
    forall i | 0 <= i < |ms|
      ensures ms[i].key == ks[i] && ks[i] in m
      ensures WellFormed(ms[i].value) && Denote(ms[i].value) == m[ks[i]]
    {
      assert ks[i] in m.Keys;
      LayoutDenotes(m[ks[i]]);
    }
    assert Keys(ms) == ks;
    AscendingDistinct(ms);
    DenoteMembersIs(ms, m);
  }

  function CanonicalText(v: Json): string
  {
    Print(Layout(v))
  }

  /** Every in-memory layout of a value prints its canonical text. */
  lemma {:induction false} TextOfAnyLayout(t: Tree)
    requires WellFormed(t) && ValidJson(Denote(t))
    ensures Print(t) == CanonicalText(Denote(t))
  {
    LayoutDenotes(Denote(t));
    PrintUnambiguous(t, Layout(Denote(t)));
  }

  lemma {:induction false} CanonicalTextInjective(a: Json, b: Json)
    requires ValidJson(a) && ValidJson(b)
    ensures CanonicalText(a) == CanonicalText(b) <==> a == b
  {
    LayoutDenotes(a);
    LayoutDenotes(b);
    PrintUnambiguous(Layout(a), Layout(b));
  }

  // ---------------------------------------------------------------------------
  // The printer at work: pushing onto a string buffer
  // ---------------------------------------------------------------------------

  class TextBuffer {
    var text: string

    constructor ()
      ensures text == ""
    {
      text := "";
    }

    method PushStr(s: string)
      modifies this
      ensures text == old(text) + s
    {
      text := text + s;
    }
  }

  lemma {:induction false} EscapeStep(value: string, i: nat, before: string)
    requires i < |value|
    ensures before + Escape(value[i..]) == (before + EscapeChar(value[i])) + Escape(value[i + 1..])
  {
    assert value[i..][1..] == value[i + 1..];
    Associative(before, EscapeChar(value[i]), Escape(value[i + 1..]));
  }

  lemma {:induction false} Surround(before: string, open: string, body: string, close: string)
    ensures ((before + open) + body) + close == before + ((open + body) + close)
  {
    Associative(before, open, body);
    Associative(before, open + body, close);
  }

  lemma {:induction false} NothingLeft(before: string)
    ensures before + [] == before
  {
  }

  method PushJsonString(value: string, output: TextBuffer)
    modifies output
    ensures output.text == old(output.text) + Quote(value)
  {
    output.PushStr("\"");
    ghost var goal := output.text + Escape(value);
    assert value[0..] == value;
    for i := 0 to |value|
      invariant output.text + Escape(value[i..]) == goal
    {
      EscapeStep(value, i, output.text);
      output.PushStr(EscapeChar(value[i]));
    }
    NothingLeft(output.text);
    output.PushStr("\"");
    Surround(old(output.text), "\"", Escape(value), "\"");
  }

  method PushCanonicalJson(value: Tree, output: TextBuffer)
    modifies output
    ensures output.text == old(output.text) + Print(value)
    decreases value, 3
  {
    match value
    case TNull => output.PushStr("null");
    case TBool(b) => if b { output.PushStr("true"); } else { output.PushStr("false"); }
    case TNum(n) => output.PushStr(NumberText(n));
    case TStr(s) => PushJsonString(s, output);
    case TArr(items) => PushArray(items, output);
    case TObj(ms) => PushObject(ms, output);
  }

  method PushArray(items: seq<Tree>, output: TextBuffer)
    modifies output
    ensures output.text == old(output.text) + Print(TArr(items))
    decreases TArr(items), 0
  {
    output.PushStr("[");
    ghost var texts := PrintItems(items);
    ghost var goal := output.text + Joined(texts, false);
    assert texts[0..] == texts;
    for index := 0 to |items|
      invariant output.text + Joined(texts[index..], index > 0) == goal
    {
      JoinedStep(texts, index, output.text);
      if index > 0 { output.PushStr(","); } else { NothingLeft(output.text); }
      PushCanonicalJson(items[index], output);
    }
    NothingLeft(output.text);
    output.PushStr("]");
    Surround(old(output.text), "[", Joined(texts, false), "]");
  }

  method PushObject(ms: seq<Keyed<Tree>>, output: TextBuffer)
    modifies output
    ensures output.text == old(output.text) + Print(TObj(ms))
    decreases TObj(ms), 2
  {
    var sorted := SortByKey(ms);
    SortMembers(ms);
    MembersOfSorted(ms);
    output.PushStr("{");
    PushMembers(TObj(ms), sorted, output);
    output.PushStr("}");
    Surround(old(output.text), "{", Joined(MemberTexts(PrintMembers(sorted)), false), "}");
  }

  method PushMembers(ghost whole: Tree, ms: seq<Keyed<Tree>>, output: TextBuffer)
    requires forall m :: m in ms ==> m.value < whole
    modifies output
    ensures output.text == old(output.text) + Joined(MemberTexts(PrintMembers(ms)), false)
    decreases whole, 1
  {
    ghost var texts := MemberTexts(PrintMembers(ms));
    ghost var goal := output.text + Joined(texts, false);
    assert texts[0..] == texts;
    for index := 0 to |ms|
      invariant output.text + Joined(texts[index..], index > 0) == goal
    {
      JoinedStep(texts, index, output.text);
      if index > 0 { output.PushStr(","); } else { NothingLeft(output.text); }
      PushMember(whole, ms[index], output);
    }
    NothingLeft(output.text);
  }

  method PushMember(ghost whole: Tree, m: Keyed<Tree>, output: TextBuffer)
    requires m.value < whole
    modifies output
    ensures output.text == old(output.text) + MemberText(Keyed(m.key, Print(m.value)))
    decreases whole, 0
  {
    PushJsonString(m.key, output);
    output.PushStr(":");
    PushCanonicalJson(m.value, output);
    Surround(old(output.text), Quote(m.key), ":", Print(m.value));
  }

  lemma {:induction false} JoinedStep(texts: seq<string>, index: nat, before: string)
    requires index < |texts|
    ensures before + Joined(texts[index..], index > 0) ==
            ((before + (if index > 0 then "," else "")) + texts[index]) + Joined(texts[index + 1..], true)
  {
    var comma := if index > 0 then "," else "";
    assert texts[index..][1..] == texts[index + 1..];
    Associative(before, comma, texts[index]);
    Associative(before, comma + texts[index], Joined(texts[index + 1..], true));
  }
}
