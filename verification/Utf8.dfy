/** UTF-8 as section 3 of RFC 3629 defines it. The API holds texts as UTF-8 bytes, the
    database counts code points; a `string` here is a sequence of Unicode scalar values. */
module Utf8 {

  type Byte = b: int | 0 <= b < 256

  function EncodeChar(c: char): (r: seq<Byte>)
    ensures 1 <= |r| <= 4
    ensures !Continuation(r[0]) && forall i :: 1 <= i < |r| ==> Continuation(r[i])
  {
    var n := c as int;
    if n < 0x80 then [n]
    else if n < 0x800 then [0xC0 + n / 0x40, 0x80 + n % 0x40]
    else if n < 0x10000 then [0xE0 + n / 0x1000, 0x80 + n / 0x40 % 0x40, 0x80 + n % 0x40]
    else [0xF0 + n / 0x40000, 0x80 + n / 0x1000 % 0x40, 0x80 + n / 0x40 % 0x40, 0x80 + n % 0x40]
  }

  function Encode(s: string): (r: seq<Byte>)
  {
    if s == "" then [] else EncodeChar(s[0]) + Encode(s[1..])
  }

  /** A byte of the form 10xxxxxx, what `(c & 0xc0) == 0x80` tests. */
  predicate Continuation(b: Byte) { 0x80 <= b < 0xC0 }

  function Leads(raw: seq<Byte>): nat
  {
    if raw == [] then 0 else (if Continuation(raw[0]) then 0 else 1) + Leads(raw[1..])
  }

  lemma {:induction false} LeadsConcat(a: seq<Byte>, b: seq<Byte>)
    ensures Leads(a + b) == Leads(a) + Leads(b)
  {
    if a == [] {
      assert a + b == b;
    } else {
      LeadsConcat(a[1..], b);
      assert (a + b)[1..] == a[1..] + b;
    }
  }

  lemma {:induction false} LeadsOfContinuations(a: seq<Byte>)
    requires forall i :: 0 <= i < |a| ==> Continuation(a[i])
    ensures Leads(a) == 0
  {
    if a != [] { LeadsOfContinuations(a[1..]); }
  }

  /** Counting the bytes that are not continuation bytes counts code points. */
  lemma {:induction false} LeadsCountCodePoints(s: string)
    ensures Leads(Encode(s)) == |s|
  {
    if s != "" {
      var head := EncodeChar(s[0]);
      LeadsOfContinuations(head[1..]);
      LeadsConcat(head, Encode(s[1..]));
      LeadsCountCodePoints(s[1..]);
    }
  }

  lemma {:induction false} AsciiBytes(s: string)
    requires forall i :: 0 <= i < |s| ==> s[i] as int < 0x80
    ensures |Encode(s)| == |s|
  {
    if s != "" { AsciiBytes(s[1..]); }
  }

  lemma EncodeCharIsPrefixFree(c: char, d: char, x: seq<Byte>, y: seq<Byte>)
    requires EncodeChar(c) + x == EncodeChar(d) + y
    requires x == [] || !Continuation(x[0])
    requires y == [] || !Continuation(y[0])
    ensures c == d && x == y
  {
    var a, b := EncodeChar(c), EncodeChar(d);
    var whole := a + x;
    assert whole == b + y;
    SameLength(a, x, b, y);
    assert a == whole[..|a|] == whole[..|b|] == b;
    assert x == whole[|a|..] && y == whole[|b|..];
    SameScalar(c, d);
  }

  lemma SameLength(a: seq<Byte>, x: seq<Byte>, b: seq<Byte>, y: seq<Byte>)
    requires a + x == b + y && a != [] && b != []
    requires forall i :: 1 <= i < |a| ==> Continuation(a[i])
    requires forall i :: 1 <= i < |b| ==> Continuation(b[i])
    requires x == [] || !Continuation(x[0])
    requires y == [] || !Continuation(y[0])
    ensures |a| == |b|
  {
    var v, w := a + x, b + y;
    assert x != [] ==> v[|a|] == x[0];
    assert y != [] ==> w[|b|] == y[0];
    assert forall i :: 0 <= i < |a| ==> v[i] == a[i];
    assert forall i :: 0 <= i < |b| ==> w[i] == b[i];
  }

  /** The scalar value a whole encoding stands for. */
  function Scalar(r: seq<int>): int
    requires 1 <= |r| <= 4
  {
    if |r| == 1 then r[0]
    else if |r| == 2 then (r[0] - 0xC0) * 0x40 + (r[1] - 0x80)
    else if |r| == 3 then (r[0] - 0xE0) * 0x1000 + (r[1] - 0x80) * 0x40 + (r[2] - 0x80)
    else (r[0] - 0xF0) * 0x40000 + (r[1] - 0x80) * 0x1000 + (r[2] - 0x80) * 0x40 + (r[3] - 0x80)
  }

  /** The bytes stand for the character, and there are no more of them than it takes. */
  lemma ScalarOfEncoding(c: char)
    ensures Scalar(EncodeChar(c)) == c as int
    ensures |EncodeChar(c)| == if c as int < 128 then 1 else if c as int < 2048 then 2 else if c as int < 65536 then 3
                               else 4
    ensures forall i :: 1 <= i < |EncodeChar(c)| ==> 128 <= EncodeChar(c)[i] < 192
  {
    var n := c as int;
    assert n / 0x40 / 0x40 == n / 0x1000;
    assert n / 0x1000 / 0x40 == n / 0x40000;
  }

  lemma SameScalar(c: char, d: char)
    requires EncodeChar(c) == EncodeChar(d)
    ensures c == d
  {
    ScalarOfEncoding(c);
    ScalarOfEncoding(d);
  }

  lemma EncodeStartsWithLead(s: string)
    ensures Encode(s) == [] <==> s == ""
    ensures s != "" ==> !Continuation(Encode(s)[0])
  {
  }

  /** Two texts are equal as bytes exactly when they are equal as code points. */
  lemma {:induction false} EncodeIsInjective(s: string, t: string)
    requires Encode(s) == Encode(t)
    ensures s == t
  {
    EncodeStartsWithLead(s);
    EncodeStartsWithLead(t);
    if s != "" {
      EncodeStartsWithLead(s[1..]);
      EncodeStartsWithLead(t[1..]);
      EncodeCharIsPrefixFree(s[0], t[0], Encode(s[1..]), Encode(t[1..]));
      EncodeIsInjective(s[1..], t[1..]);
      assert s == [s[0]] + s[1..] && t == [t[0]] + t[1..];
    }
  }

  /** A byte of " \t\r\n". */
  predicate Blank(b: Byte) { b == 32 || b == 9 || b == 13 || b == 10 }

  predicate BlankChar(c: char) { c == ' ' || c == '\t' || c == '\r' || c == '\n' }

  predicate AllBlank(s: string) { forall i :: 0 <= i < |s| ==> BlankChar(s[i]) }

  /** A text has a byte outside " \t\r\n" exactly when it has such a character. */
  lemma {:induction false} BlankBytesAreBlankChars(s: string)
    ensures (forall i :: 0 <= i < |Encode(s)| ==> Blank(Encode(s)[i])) <==> AllBlank(s)
  {
    if s != "" {
      BlankBytesAreBlankChars(s[1..]);
      var head, tail := EncodeChar(s[0]), Encode(s[1..]);
      var whole := Encode(s);
      assert whole == head + tail;
      assert Blank(head[0]) <==> BlankChar(s[0]);
      assert BlankChar(s[0]) ==> |head| == 1;
      assert forall i :: 0 <= i < |tail| ==> whole[|head| + i] == tail[i];
      assert forall i :: |head| <= i < |whole| ==> whole[i] == tail[i - |head|];
      assert whole[0] == head[0];
      assert forall i :: 0 <= i < |s[1..]| ==> s[1..][i] == s[i + 1];
      assert AllBlank(s) <==> BlankChar(s[0]) && AllBlank(s[1..]) by {
        assert forall i :: 1 <= i < |s| ==> s[i] == s[1..][i - 1];
      }
    }
  }
}
