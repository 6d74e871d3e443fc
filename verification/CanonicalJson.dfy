/**
 The canonical JSON printer that mutation intents hash.

 A `Tree` is a JSON value as it lies in memory, with the iteration order its
 maps happen to have; `Denote` forgets that order.  The printer is proved
 unambiguous by a reader that accepts only texts of the RFC 8259 grammar.
 */
module CanonicalJson {
  import opened Prelude
  import opened Json

  datatype Keyed<+T> = Keyed(key: string, value: T)

  datatype Tree =
    | TNull
    | TBool(b: bool)
    | TNum(n: Number)
    | TStr(s: string)
    | TArr(items: seq<Tree>)
    | TObj(members: seq<Keyed<Tree>>)

  ghost predicate DistinctKeys<T>(ms: seq<Keyed<T>>)
  {
    forall i, j :: 0 <= i < j < |ms| ==> ms[i].key != ms[j].key
  }

  function Keys<T>(s: seq<Keyed<T>>): (r: seq<string>)
    ensures |r| == |s| && forall i :: 0 <= i < |s| ==> r[i] == s[i].key
  {
    if s == [] then [] else [s[0].key] + Keys(s[1..])
  }

  /** Numbers are printable and no object repeats a key. */
  ghost predicate WellFormed(t: Tree)
  {
    match t
    case TNum(n) => ValidNumber(n)
    case TArr(items) => forall i :: 0 <= i < |items| ==> WellFormed(items[i])
    case TObj(ms) => DistinctKeys(ms) && forall i :: 0 <= i < |ms| ==> WellFormed(ms[i].value)
    case _ => true
  }

  // ---------------------------------------------------------------------------
  // Meaning: the value without member order
  // ---------------------------------------------------------------------------

  ghost function Denote(t: Tree): Json
    decreases t, 1
  {
    match t
    case TNull => Null
    case TBool(b) => Bool(b)
    case TNum(n) => Num(n)
    case TStr(s) => Str(s)
    case TArr(items) => Arr(DenoteItems(items))
    case TObj(ms) => Obj(DenoteMembers(ms))
  }

  ghost function DenoteItems(items: seq<Tree>): (r: seq<Json>)
    ensures |r| == |items|
    ensures forall i :: 0 <= i < |items| ==> r[i] == Denote(items[i])
    decreases items, 0
  {
    if items == [] then [] else [Denote(items[0])] + DenoteItems(items[1..])
  }

  ghost function DenoteMembers(ms: seq<Keyed<Tree>>): (r: map<string, Json>)
    ensures forall k :: k in r <==> k in Keys(ms)
    decreases ms, 0
  {
    if ms == [] then map[]
    else DenoteMembers(ms[1..])[ms[0].key := Denote(ms[0].value)]
  }

  lemma {:induction false} DenoteMemberAt(ms: seq<Keyed<Tree>>, i: nat)
    requires DistinctKeys(ms) && i < |ms|
    ensures ms[i].key in DenoteMembers(ms) && DenoteMembers(ms)[ms[i].key] == Denote(ms[i].value)
  {
    assert Keys(ms)[i] == ms[i].key;
    if i > 0 { DenoteMemberAt(ms[1..], i - 1); }
  }

  // ---------------------------------------------------------------------------
  // Sorting members by key
  // ---------------------------------------------------------------------------

  function Insert<T>(m: Keyed<T>, s: seq<Keyed<T>>): seq<Keyed<T>>
  {
    if s == [] || !Less(s[0].key, m.key) then [m] + s else [s[0]] + Insert(m, s[1..])
  }

  function SortByKey<T>(s: seq<Keyed<T>>): seq<Keyed<T>>
  {
    if s == [] then [] else Insert(s[0], SortByKey(s[1..]))
  }

  function MapValues<A, B>(f: A -> B, s: seq<Keyed<A>>): (r: seq<Keyed<B>>)
    ensures |r| == |s|
    ensures forall i :: 0 <= i < |s| ==> r[i] == Keyed(s[i].key, f(s[i].value))
  {
    if s == [] then [] else [Keyed(s[0].key, f(s[0].value))] + MapValues(f, s[1..])
  }

  lemma {:induction false} InsertMembers<T>(m: Keyed<T>, s: seq<Keyed<T>>)
    ensures multiset(Insert(m, s)) == multiset(s) + multiset{m}
  {
    if s != [] {
      assert s == [s[0]] + s[1..];
      if Less(s[0].key, m.key) { InsertMembers(m, s[1..]); }
    }
  }

  lemma {:induction false} SortPermutes<T>(s: seq<Keyed<T>>)
    ensures multiset(SortByKey(s)) == multiset(s)
  {
    if s != [] {
      SortPermutes(s[1..]);
      InsertMembers(s[0], SortByKey(s[1..]));
      assert s == [s[0]] + s[1..];
    }
  }

  lemma {:induction false} SameMembers<T>(a: seq<Keyed<T>>, b: seq<Keyed<T>>)
    requires multiset(a) == multiset(b)
    ensures |a| == |b| && forall m :: m in a <==> m in b
  {
    assert |multiset(a)| == |a| && |multiset(b)| == |b|;
    forall m ensures m in a <==> m in b {
      assert m in a <==> m in multiset(a);
      assert m in b <==> m in multiset(b);
    }
  }

  /** Sorting is a permutation. */
  lemma {:induction false} SortMembers<T>(s: seq<Keyed<T>>)
    ensures multiset(SortByKey(s)) == multiset(s)
    ensures |SortByKey(s)| == |s|
    ensures forall m :: m in SortByKey(s) <==> m in s
  {
    SortPermutes(s);
    SameMembers(SortByKey(s), s);
  }

  lemma {:induction false} InsertKeys<T>(m: Keyed<T>, s: seq<Keyed<T>>)
    ensures forall k :: k in Keys(Insert(m, s)) <==> k == m.key || k in Keys(s)
  {
    if s != [] && Less(s[0].key, m.key) {
      InsertKeys(m, s[1..]);
      assert Insert(m, s)[1..] == Insert(m, s[1..]);
    } else {
      assert Insert(m, s)[1..] == s;
    }
  }

  lemma {:induction false} SortKeys<T>(s: seq<Keyed<T>>)
    ensures forall k :: k in Keys(SortByKey(s)) <==> k in Keys(s)
  {
    if s != [] {
      SortKeys(s[1..]);
      InsertKeys(s[0], SortByKey(s[1..]));
    }
  }

  lemma {:induction false} ConsAscending(k: string, s: seq<string>)
    requires Ascending(s) && forall x :: x in s ==> Less(k, x)
    ensures Ascending([k] + s)
  {
    var r := [k] + s;
    forall i, j | 0 <= i < j < |r| ensures Less(r[i], r[j]) {
      assert r[j] == s[j - 1] && r[j] in s;
      if i > 0 { assert r[i] == s[i - 1]; }
    }
  }

  lemma {:induction false} TailAscending(s: seq<string>)
    requires Ascending(s) && s != []
    ensures Ascending(s[1..]) && forall x :: x in s[1..] ==> Less(s[0], x)
  {
    forall x | x in s[1..] ensures Less(s[0], x) {
      var i :| 0 <= i < |s[1..]| && s[1..][i] == x;
      assert s[i + 1] == x;
    }
  }

  lemma {:induction false} InsertAscending<T>(m: Keyed<T>, s: seq<Keyed<T>>)
    requires Ascending(Keys(s)) && m.key !in Keys(s)
    ensures Ascending(Keys(Insert(m, s)))
  {
    if s == [] {
      assert Keys(Insert(m, s)) == [m.key];
    } else {
      TailAscending(Keys(s));
      assert Keys(s)[1..] == Keys(s[1..]);
      if Less(s[0].key, m.key) {
        InsertAscending(m, s[1..]);
        InsertKeys(m, s[1..]);
        ConsAscending(s[0].key, Keys(Insert(m, s[1..])));
        assert Insert(m, s)[1..] == Insert(m, s[1..]);
      } else {
        assert s[0].key in Keys(s);
        LessTotal(s[0].key, m.key);
        forall x | x in Keys(s) ensures Less(m.key, x) {
          FirstIsLeast(Keys(s), x);
          if x != s[0].key { LessTransitive(m.key, s[0].key, x); }
        }
        ConsAscending(m.key, Keys(s));
        assert Insert(m, s)[1..] == s;
      }
    }
  }

  /** Distinct keys come out in strictly ascending order. */
  lemma {:induction false} SortAscending<T>(s: seq<Keyed<T>>)
    requires DistinctKeys(s)
    ensures Ascending(Keys(SortByKey(s)))
  {
    if s != [] {
      SortAscending(s[1..]);
      SortKeys(s[1..]);
      InsertAscending(s[0], SortByKey(s[1..]));
    }
  }

  /** Sorting an ascending listing leaves it as it is. */
  lemma {:induction false} SortSorted<T>(s: seq<Keyed<T>>)
    requires Ascending(Keys(s))
    ensures SortByKey(s) == s
  {
    if s != [] {
      var t := s[1..];
      assert forall i :: 0 <= i < |t| ==> Keys(t)[i] == Keys(s)[i + 1];
      SortSorted(t);
      if t != [] { LessAsymmetric(Keys(s)[0], Keys(s)[1]); }
    }
  }

  lemma {:induction false} InsertMap<A, B>(f: A -> B, m: Keyed<A>, s: seq<Keyed<A>>)
    ensures MapValues(f, Insert(m, s)) == Insert(Keyed(m.key, f(m.value)), MapValues(f, s))
  {
    if s != [] {
      assert MapValues(f, s)[1..] == MapValues(f, s[1..]);
      if Less(s[0].key, m.key) {
        InsertMap(f, m, s[1..]);
        assert Insert(m, s)[1..] == Insert(m, s[1..]);
      } else {
        assert Insert(m, s)[1..] == s;
      }
    }
  }

  /** Sorting looks at keys only. */
  lemma {:induction false} SortMap<A, B>(f: A -> B, s: seq<Keyed<A>>)
    ensures MapValues(f, SortByKey(s)) == SortByKey(MapValues(f, s))
  {
    if s != [] {
      SortMap(f, s[1..]);
      InsertMap(f, s[0], SortByKey(s[1..]));
      assert MapValues(f, s)[1..] == MapValues(f, s[1..]);
    }
  }

  // ---------------------------------------------------------------------------
  // Canonical form and canonical text
  // ---------------------------------------------------------------------------

  function Canonicalize(t: Tree): Tree
    decreases t, 1
  {
    match t
    case TArr(items) => TArr(CanonicalItems(items))
    case TObj(ms) => TObj(SortByKey(CanonicalMembers(ms)))
    case _ => t
  }

  function CanonicalItems(items: seq<Tree>): (r: seq<Tree>)
    ensures |r| == |items| && forall i :: 0 <= i < |items| ==> r[i] == Canonicalize(items[i])
    decreases items, 0
  {
    if items == [] then [] else [Canonicalize(items[0])] + CanonicalItems(items[1..])
  }

  function CanonicalMembers(ms: seq<Keyed<Tree>>): (r: seq<Keyed<Tree>>)
    ensures |r| == |ms|
    ensures forall i :: 0 <= i < |ms| ==> r[i] == Keyed(ms[i].key, Canonicalize(ms[i].value))
    decreases ms, 0
  {
    if ms == [] then [] else [Keyed(ms[0].key, Canonicalize(ms[0].value))] + CanonicalMembers(ms[1..])
  }

  const HEX := "0123456789abcdef"

  function EscapeChar(c: char): string
  {
    if c == '"' then "\\\""
    else if c == '\\' then "\\\\"
    else if c == '\U{08}' then "\\b"
    else if c == '\t' then "\\t"
    else if c == '\n' then "\\n"
    else if c == '\U{0c}' then "\\f"
    else if c == '\r' then "\\r"
    else if c < '\U{20}' then "\\u00" + [HEX[c as int / 16], HEX[c as int % 16]]
    else [c]
  }

  function Escape(s: string): string
  {
    if s == [] then [] else EscapeChar(s[0]) + Escape(s[1..])
  }

  function Quote(s: string): string
  {
    "\"" + Escape(s) + "\""
  }

  /** Texts separated by commas, with a comma in front when some text came before. */
  function Joined(texts: seq<string>, comma: bool): string
  {
    if texts == [] then []
    else (if comma then "," else "") + texts[0] + Joined(texts[1..], true)
  }

  function MemberText(m: Keyed<string>): string
  {
    Quote(m.key) + ":" + m.value
  }

  function MemberTexts(ms: seq<Keyed<string>>): (r: seq<string>)
    ensures |r| == |ms| && forall i :: 0 <= i < |ms| ==> r[i] == MemberText(ms[i])
  {
    if ms == [] then [] else [MemberText(ms[0])] + MemberTexts(ms[1..])
  }

  function Print(t: Tree): string
    decreases t, 1
  {
    match t
    case TNull => "null"
    case TBool(true) => "true"
    case TBool(false) => "false"
    case TNum(n) => NumberText(n)
    case TStr(s) => Quote(s)
    case TArr(items) => "[" + Joined(PrintItems(items), false) + "]"
    case TObj(ms) => "{" + Joined(MemberTexts(SortByKey(PrintMembers(ms))), false) + "}"
  }

  function PrintItems(items: seq<Tree>): (r: seq<string>)
    ensures |r| == |items| && forall i :: 0 <= i < |items| ==> r[i] == Print(items[i])
    decreases items, 0
  {
    if items == [] then [] else [Print(items[0])] + PrintItems(items[1..])
  }

  function PrintMembers(ms: seq<Keyed<Tree>>): (r: seq<Keyed<string>>)
    ensures |r| == |ms|
    ensures forall i :: 0 <= i < |ms| ==> r[i] == Keyed(ms[i].key, Print(ms[i].value))
    decreases ms, 0
  {
    if ms == [] then [] else [Keyed(ms[0].key, Print(ms[0].value))] + PrintMembers(ms[1..])
  }
}
