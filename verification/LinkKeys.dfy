/** Link storage ids are injective: each names one link. */
module LinkKeys {
  import opened Store

  predicate IsHex(c: char)
  {
    '0' <= c <= '9' || 'a' <= c <= 'f'
  }

  predicate AllHex(s: string)
  {
    forall i :: 0 <= i < |s| ==> IsHex(s[i])
  }

  predicate AllBytes(bs: seq<nat>)
  {
    forall i :: 0 <= i < |bs| ==> bs[i] < 0x100
  }

  // ---- UTF-8 is prefix-free ----

  lemma {:induction false} Utf8Bytes(c: char)
    ensures Utf8(c) != [] && AllBytes(Utf8(c))
  {
  }

  /** The first byte fixes the length of a character, and its bytes fix the character. */
  lemma {:induction false} Utf8Determines(c: char, d: char, x: seq<nat>, y: seq<nat>)
    requires Utf8(c) + x == Utf8(d) + y
    ensures c == d && x == y
  {
    var l, r := Utf8(c) + x, Utf8(d) + y;
    assert l[0] == Utf8(c)[0] && r[0] == Utf8(d)[0];
    assert |Utf8(c)| == |Utf8(d)|;
    assert l[..|Utf8(c)|] == Utf8(c) && r[..|Utf8(d)|] == Utf8(d);
    SameCode(c, d);
    assert l[|Utf8(c)|..] == x && r[|Utf8(d)|..] == y;
  }

  lemma {:induction false} SplitBy64(u: nat)
    ensures u == 64 * (u / 64) + u % 64 && u / 4096 == u / 64 / 64 && u / 262144 == u / 64 / 64 / 64
  {
  }

  /** The code point spelt by a UTF-8 sequence of the given length. */
  function CodePoint(bs: seq<int>): int
    requires 1 <= |bs| <= 4
  {
    if |bs| == 1 then bs[0]
    else if |bs| == 2 then (bs[0] - 0xC0) * 64 + (bs[1] - 0x80)
    else if |bs| == 3 then ((bs[0] - 0xE0) * 64 + (bs[1] - 0x80)) * 64 + (bs[2] - 0x80)
    else (((bs[0] - 0xF0) * 64 + (bs[1] - 0x80)) * 64 + (bs[2] - 0x80)) * 64 + (bs[3] - 0x80)
  }

  lemma {:induction false} Utf8Decodes(c: char)
    ensures 1 <= |Utf8(c)| <= 4 && CodePoint(Utf8(c)) == c as int
  {
    var u := c as int;
    SplitBy64(u);
    SplitBy64(u / 64);
    SplitBy64(u / 64 / 64);
  }

  lemma {:induction false} SameCode(c: char, d: char)
    requires Utf8(c) == Utf8(d)
    ensures c == d
  {
    Utf8Decodes(c);
    Utf8Decodes(d);
    assert c as int == d as int;
  }

  lemma {:induction false} BytesAreBytes(s: string)
    ensures AllBytes(Bytes(s)) && (s != [] ==> Bytes(s) != [])
  {
    if s != [] {
      BytesAreBytes(s[1..]);
      Utf8Bytes(s[0]);
    }
  }

  lemma {:induction false} BytesInjective(s: string, t: string)
    requires Bytes(s) == Bytes(t)
    ensures s == t
  {
    BytesAreBytes(s);
    BytesAreBytes(t);
    if s != [] && t != [] {
      Utf8Determines(s[0], t[0], Bytes(s[1..]), Bytes(t[1..]));
      BytesInjective(s[1..], t[1..]);
    }
  }

  // ---- Hexadecimal text ----

  lemma {:induction false} HexShape(n: nat, width: nat)
    ensures |HexDigits(n, width)| == width && AllHex(HexDigits(n, width))
  {
    if width > 0 { HexShape(n / 16, width - 1); }
  }

  lemma {:induction false} HexDigitInjective(a: nat, b: nat)
    requires a < 16 && b < 16 && "0123456789abcdef"[a] == "0123456789abcdef"[b]
    ensures a == b
  {
  }

  lemma {:induction false} HexPair(n: nat)
    requires n < 0x100
    ensures HexDigits(n, 2) == ["0123456789abcdef"[n / 16], "0123456789abcdef"[n % 16]]
  {
    assert HexDigits(n / 16, 1) == HexDigits(n / 16 / 16, 0) + ["0123456789abcdef"[n / 16 % 16]];
  }

  lemma {:induction false} TwoDigits(a: nat, b: nat)
    requires a < 0x100 && b < 0x100 && HexDigits(a, 2) == HexDigits(b, 2)
    ensures a == b
  {
    HexPair(a);
    HexPair(b);
    assert HexDigits(a, 2)[0] == HexDigits(b, 2)[0] && HexDigits(a, 2)[1] == HexDigits(b, 2)[1];
    HexDigitInjective(a / 16, b / 16);
    HexDigitInjective(a % 16, b % 16);
  }

  lemma {:induction false} HexBytesShape(bs: seq<nat>)
    ensures AllHex(HexBytes(bs)) && |HexBytes(bs)| == 2 * |bs|
  {
    if bs != [] {
      HexShape(bs[0], 2);
      HexBytesShape(bs[1..]);
    }
  }

  lemma {:induction false} HexBytesInjective(a: seq<nat>, b: seq<nat>)
    requires AllBytes(a) && AllBytes(b) && HexBytes(a) == HexBytes(b)
    ensures a == b
  {
    HexBytesShape(a);
    HexBytesShape(b);
    if a != [] {
      HexShape(a[0], 2);
      HexShape(b[0], 2);
      assert HexBytes(a)[..2] == HexDigits(a[0], 2) && HexBytes(b)[..2] == HexDigits(b[0], 2);
      assert HexBytes(a)[2..] == HexBytes(a[1..]) && HexBytes(b)[2..] == HexBytes(b[1..]);
      TwoDigits(a[0], b[0]);
      HexBytesInjective(a[1..], b[1..]);
    }
  }

  // ---- Components ----

  /** A component without its closing bar. */
  function Body(value: string): string
  {
    HexDigits(|Bytes(value)|, 16) + ":" + HexBytes(Bytes(value))
  }

  lemma {:induction false} BodyHasNoBar(value: string)
    ensures '|' !in Body(value)
  {
    HexShape(|Bytes(value)|, 16);
    HexBytesShape(Bytes(value));
  }

  lemma {:induction false} BodyInjective(a: string, b: string)
    requires Body(a) == Body(b)
    ensures a == b
  {
    HexShape(|Bytes(a)|, 16);
    HexShape(|Bytes(b)|, 16);
    assert Body(a)[17..] == HexBytes(Bytes(a)) && Body(b)[17..] == HexBytes(Bytes(b));
    BytesAreBytes(a);
    BytesAreBytes(b);
    HexBytesInjective(Bytes(a), Bytes(b));
    BytesInjective(a, b);
  }

  lemma {:induction false} FirstBar(a: string, b: string, x: string, y: string)
    requires '|' !in a && '|' !in b && a + "|" + x == b + "|" + y
    ensures a == b && x == y
  {
    var l, r := a + "|" + x, b + "|" + y;
    assert l[|a|] == '|' && r[|b|] == '|';
    assert l[..|a|] == a && r[..|b|] == b && l[|a| + 1..] == x && r[|b| + 1..] == y;
  }

  /** A component and what follows it can be told apart. */
  lemma {:induction false} ComponentSplits(a: string, b: string, x: string, y: string)
    requires Component(a) + x == Component(b) + y
    ensures a == b && x == y
  {
    BodyHasNoBar(a);
    BodyHasNoBar(b);
    assert Component(a) + x == Body(a) + "|" + x && Component(b) + y == Body(b) + "|" + y;
    FirstBar(Body(a), Body(b), x, y);
    BodyInjective(a, b);
  }

  function Chain(parts: seq<string>): string
  {
    if parts == [] then "" else Component(parts[0]) + Chain(parts[1..])
  }

  lemma {:induction false} ChainInjective(a: seq<string>, b: seq<string>)
    requires |a| == |b| && Chain(a) == Chain(b)
    ensures a == b
  {
    if a != [] {
      ComponentSplits(a[0], b[0], Chain(a[1..]), Chain(b[1..]));
      ChainInjective(a[1..], b[1..]);
    }
  }

  function ForwardParts(l: LinkIdent): seq<string>
  {
    [l.source.collection, l.source.id, l.linkType, l.target.collection, l.target.id]
  }

  function ReverseParts(l: LinkIdent): seq<string>
  {
    [l.target.collection, l.target.id, l.source.collection, l.source.id, l.linkType]
  }

  lemma {:induction false} ChainOfFive(p: seq<string>)
    requires |p| == 5
    ensures Chain(p) == Component(p[0]) + Component(p[1]) + Component(p[2]) + Component(p[3]) + Component(p[4])
  {
    ChainOfTwo(p[3..]);
    assert Chain(p[2..]) == Component(p[2]) + Chain(p[3..]) by { assert p[2..][1..] == p[3..]; }
    assert Chain(p[1..]) == Component(p[1]) + Chain(p[2..]) by { assert p[1..][1..] == p[2..]; }
    Grouped(Component(p[0]), Component(p[1]), Component(p[2]), Component(p[3]), Component(p[4]));
  }

  lemma {:induction false} ChainOfTwo(p: seq<string>)
    requires |p| == 2
    ensures Chain(p) == Component(p[0]) + Component(p[1])
  {
    assert Chain(p[1..]) == Component(p[1]) + Chain([]) by { assert p[1..][1..] == []; }
    assert Component(p[1]) + "" == Component(p[1]);
  }

  lemma {:induction false} Grouped(a: string, b: string, c: string, d: string, e: string)
    ensures a + (b + (c + (d + e))) == a + b + c + d + e
  {
  }

  /** Two links share a forward id exactly when they are the same link. */
  lemma {:induction false} ForwardKeyInjective(l: LinkIdent, m: LinkIdent)
    ensures ForwardKey(l) == ForwardKey(m) <==> l == m
  {
    if ForwardKey(l) == ForwardKey(m) {
      ForwardIs(l);
      ForwardIs(m);
      assert ForwardId(l)[5..] == Chain(ForwardParts(l)) && ForwardId(m)[5..] == Chain(ForwardParts(m));
      ChainInjective(ForwardParts(l), ForwardParts(m));
      SameForward(l, m);
    }
  }

  lemma {:induction false} ForwardIs(l: LinkIdent)
    ensures ForwardId(l) == "lk1f|" + Chain(ForwardParts(l))
  {
    ChainOfFive(ForwardParts(l));
    Prefixed("lk1f|", Component(l.source.collection), Component(l.source.id), Component(l.linkType),
             Component(l.target.collection), Component(l.target.id));
  }

  lemma {:induction false} ReverseIs(l: LinkIdent)
    ensures ReverseId(l) == "lk1r|" + Chain(ReverseParts(l))
  {
    ChainOfFive(ReverseParts(l));
    Prefixed("lk1r|", Component(l.target.collection), Component(l.target.id), Component(l.source.collection),
             Component(l.source.id), Component(l.linkType));
  }

  lemma {:induction false} Prefixed(p: string, a: string, b: string, c: string, d: string, e: string)
    ensures p + a + b + c + d + e == p + (a + b + c + d + e)
  {
  }

  lemma {:induction false} SameForward(l: LinkIdent, m: LinkIdent)
    requires ForwardParts(l) == ForwardParts(m)
    ensures l == m
  {
    var p, q := ForwardParts(l), ForwardParts(m);
    assert p[0] == q[0] && p[1] == q[1] && p[2] == q[2] && p[3] == q[3] && p[4] == q[4];
  }

  /** Two links share a reverse id exactly when they are the same link. */
  lemma {:induction false} ReverseKeyInjective(l: LinkIdent, m: LinkIdent)
    ensures ReverseKey(l) == ReverseKey(m) <==> l == m
  {
    if ReverseKey(l) == ReverseKey(m) {
      ReverseIs(l);
      ReverseIs(m);
      assert ReverseId(l)[5..] == Chain(ReverseParts(l)) && ReverseId(m)[5..] == Chain(ReverseParts(m));
      ChainInjective(ReverseParts(l), ReverseParts(m));
      SameReverse(l, m);
    }
  }

  lemma {:induction false} SameReverse(l: LinkIdent, m: LinkIdent)
    requires ReverseParts(l) == ReverseParts(m)
    ensures l == m
  {
    var p, q := ReverseParts(l), ReverseParts(m);
    assert p[0] == q[0] && p[1] == q[1] && p[2] == q[2] && p[3] == q[3] && p[4] == q[4];
  }
}
