/** The two patterns of the API and the tables, `^[a-z0-9]+(-[a-z0-9]+)*$` and 8-4-4-4-12 hexadecimal digits,
    as the texts they generate, and what letter case means in a uuid. */
module Patterns {
  import opened Uuids
  import opened CatalogTables

  // Slugs.

  predicate Word(s: string)
  {
    s != "" && forall i :: 0 <= i < |s| ==> ('a' <= s[i] && s[i] <= 'z') || ('0' <= s[i] && s[i] <= '9')
  }

  function Joined(words: seq<string>): string
    requires words != []
  {
    if |words| == 1 then words[0] else words[0] + "-" + Joined(words[1..])
  }

  ghost predicate JoinsWords(s: string)
  {
    exists words: seq<string> :: words != [] && (forall w :: w in words ==> Word(w)) && s == Joined(words)
  }

  lemma WordIsSlug(w: string)
    requires Word(w)
    ensures SlugPattern(w) && '-' !in w
  {
    assert forall i :: 0 <= i < |w| ==> Alnum(w[i]);
  }

  lemma DashIsNoAlnum()
    ensures !Alnum('-')
  {
  }

  lemma SlugGrows(w: string, s: string)
    requires Word(w) && SlugPattern(s)
    ensures SlugPattern(w + "-" + s)
  {
    WordIsSlug(w);
    hide Word, Alnum;
    var all := w + "-" + s;
    forall i | 0 <= i < |all| ensures all[i] == if i < |w| then w[i] else if i == |w| then '-' else s[i - |w| - 1] { }
    forall i | 0 < i < |all| ensures all[i - 1] != '-' || all[i] != '-' {
      if i < |w| { assert w[i] in w; }
      if i == |w| { assert w[i - 1] in w; }
      if i == |w| + 1 { DashIsNoAlnum(); }
    }
  }

  lemma {:induction false} WordsMakeSlug(words: seq<string>)
    requires words != [] && forall w :: w in words ==> Word(w)
    ensures SlugPattern(Joined(words))
    decreases |words|
  {
    hide SlugPattern, Word;
    if |words| == 1 {
      WordIsSlug(words[0]);
    } else {
      WordsMakeSlug(words[1..]);
      SlugGrows(words[0], Joined(words[1..]));
    }
  }

  lemma FirstWord(s: string, i: nat)
    requires SlugPattern(s) && i <= |s| && (i < |s| ==> s[i] == '-') && forall j :: 0 <= j < i ==> s[j] != '-'
    ensures Word(s[..i]) && (i < |s| ==> SlugPattern(s[i + 1..]) && s == s[..i] + "-" + s[i + 1..])
  {
    assert forall j :: 0 <= j < i ==> Alnum(s[j]);
  }

  lemma {:induction false} SlugMadeOfWords(s: string) returns (words: seq<string>)
    requires SlugPattern(s)
    ensures words != [] && (forall w :: w in words ==> Word(w)) && s == Joined(words)
    decreases |s|
  {
    var i := 0;
    while i < |s| && s[i] != '-'
      invariant i <= |s| && forall j :: 0 <= j < i ==> s[j] != '-'
    {
      i := i + 1;
    }
    FirstWord(s, i);
    if i == |s| {
      assert s[..i] == s;
      words := [s];
    } else {
      hide SlugPattern, Word;
      var rest := SlugMadeOfWords(s[i + 1..]);
      words := [s[..i]] + rest;
      assert words[1..] == rest;
    }
  }

  /** A slug is one or more words of lower-case letters and digits, joined by single hyphens. */
  lemma SlugIsWords(s: string)
    ensures SlugPattern(s) <==> JoinsWords(s)
  {
    hide SlugPattern, Word, Joined;
    if SlugPattern(s) { var words := SlugMadeOfWords(s); }
    if JoinsWords(s) {
      var words :| words != [] && (forall w :: w in words ==> Word(w)) && s == Joined(words);
      WordsMakeSlug(words);
    }
  }

  // UUIDs.

  /** A hexadecimal digit and its value; 16 for any other character. */
  function HexValue(c: char): nat
  {
    if '0' <= c <= '9' then c as int - '0' as int
    else if 'a' <= c <= 'f' then 10 + c as int - 'a' as int
    else if 'A' <= c <= 'F' then 10 + c as int - 'A' as int
    else 16
  }

  predicate HexText(s: string, n: nat)
  {
    |s| == n && forall i :: 0 <= i < n ==> HexValue(s[i]) < 16
  }

  ghost predicate FiveGroups(s: string)
  {
    exists a, b, c, d, e ::
      && HexText(a, 8) && HexText(b, 4) && HexText(c, 4) && HexText(d, 4) && HexText(e, 12)
      && s == a + "-" + b + "-" + c + "-" + d + "-" + e
  }

  lemma HexHasValue(c: char)
    ensures IsHex(c) <==> HexValue(c) < 16
  {
  }

  lemma GroupIsHex(s: string, from: nat, n: nat)
    requires IsUuid(s) && from + n <= 36
    requires (8 < from || from + n <= 8) && (13 < from || from + n <= 13)
    requires (18 < from || from + n <= 18) && (23 < from || from + n <= 23)
    ensures HexText(s[from..from + n], n)
  {
    var g := s[from..from + n];
    forall i | 0 <= i < n ensures HexValue(g[i]) < 16 {
      assert g[i] == s[from + i];
      HexHasValue(s[from + i]);
    }
  }

  lemma GroupsMakeUuid(a: string, b: string, c: string, d: string, e: string)
    requires HexText(a, 8) && HexText(b, 4) && HexText(c, 4) && HexText(d, 4) && HexText(e, 12)
    ensures IsUuid(a + "-" + b + "-" + c + "-" + d + "-" + e)
  {
    var s := a + "-" + b + "-" + c + "-" + d + "-" + e;
    forall i | 0 <= i < 36 ensures if i in {8, 13, 18, 23} then s[i] == '-' else IsHex(s[i]) {
      if i < 8 {
        HexHasValue(a[i]);
      } else if 9 <= i < 13 {
        HexHasValue(b[i - 9]);
      } else if 14 <= i < 18 {
        HexHasValue(c[i - 14]);
      } else if 19 <= i < 23 {
        HexHasValue(d[i - 19]);
      } else if 24 <= i {
        HexHasValue(e[i - 24]);
      }
    }
  }

  /** What passes for a uuid is five groups of hexadecimal digits in either case. */
  lemma UuidIsFiveGroups(s: string)
    ensures IsUuid(s) <==> FiveGroups(s)
  {
    if IsUuid(s) {
      GroupIsHex(s, 0, 8);
      GroupIsHex(s, 9, 4);
      GroupIsHex(s, 14, 4);
      GroupIsHex(s, 19, 4);
      GroupIsHex(s, 24, 12);
      hide HexText;
      assert s == s[0..8] + "-" + s[9..13] + "-" + s[14..18] + "-" + s[19..23] + "-" + s[24..36];
    }
    if a, b, c, d, e :|
      && HexText(a, 8) && HexText(b, 4) && HexText(c, 4) && HexText(d, 4) && HexText(e, 12)
      && s == a + "-" + b + "-" + c + "-" + d + "-" + e
    {
      GroupsMakeUuid(a, b, c, d, e);
    }
  }

  /** Two spellings are stored as one uuid exactly when they have the same digits, letter case aside. */
  lemma SameUuidExactly(a: string, b: string)
    requires IsUuid(a) && IsUuid(b)
    ensures Canon(a) == Canon(b) <==> forall i :: 0 <= i < 36 ==> HexValue(a[i]) == HexValue(b[i])
  {
    var x, y := Canon(a), Canon(b);
    assert forall i :: 0 <= i < 36 ==> x[i] == Lower(a[i]) && y[i] == Lower(b[i]);
    forall i | 0 <= i < 36 ensures Lower(a[i]) == Lower(b[i]) <==> HexValue(a[i]) == HexValue(b[i]) { }
    if forall i :: 0 <= i < 36 ==> HexValue(a[i]) == HexValue(b[i]) {
      assert forall i :: 0 <= i < 36 ==> x[i] == y[i];
    }
  }

  /** The stored spelling has the same digits and no capital letter. */
  lemma StoredSpelling(s: string)
    requires IsUuid(s)
    ensures IsUuid(Canon(s))
    ensures forall i :: 0 <= i < 36 ==> HexValue(Canon(s)[i]) == HexValue(s[i]) && !('A' <= Canon(s)[i] <= 'Z')
  {
    CanonIsCanonical(s);
  }
}
