/** Python string operations on the ASCII range: `strip`, `upper` and the lexicographic order. */
module Text {
  import opened Sorting

  predicate IsSpace(c: char) {
    c == ' ' || '\t' <= c <= '\r' || '\U{1c}' <= c <= '\U{1f}'
  }

  function LStrip(s: string): (r: string)
    ensures r == [] || !IsSpace(r[0])
    ensures s != [] && !IsSpace(s[|s| - 1]) ==> r != [] && r[|r| - 1] == s[|s| - 1]
  {
    if s != [] && IsSpace(s[0]) then LStrip(s[1..]) else s
  }

  function RStrip(s: string): (r: string)
    ensures r == [] || !IsSpace(r[|r| - 1])
    ensures s != [] && !IsSpace(s[0]) ==> r != [] && r[0] == s[0]
  {
    if s != [] && IsSpace(s[|s| - 1]) then RStrip(s[..|s| - 1]) else s
  }

  function Strip(s: string): string {
    RStrip(LStrip(s))
  }

  function UpperChar(c: char): char {
    if 'a' <= c <= 'z' then ((c as int) - 32) as char else c
  }

  function Upper(s: string): (r: string)
    ensures |r| == |s|
    ensures forall i :: 0 <= i < |s| ==> r[i] == UpperChar(s[i])
  {
    seq(|s|, i requires 0 <= i < |s| => UpperChar(s[i]))
  }

  /** `symbol.strip().upper()` */
  function Normalize(s: string): string {
    Upper(Strip(s))
  }

  predicate Trimmed(s: string) {
    s == [] || (!IsSpace(s[0]) && !IsSpace(s[|s| - 1]))
  }

  lemma StripTrims(s: string)
    ensures Trimmed(Strip(s))
    ensures Trimmed(s) ==> Strip(s) == s
  {}

  predicate AllSpace(s: string) {
    forall i :: 0 <= i < |s| ==> IsSpace(s[i])
  }

  lemma {:induction false} LStripCuts(s: string) returns (a: string)
    ensures s == a + LStrip(s) && AllSpace(a)
  {
    if s != [] && IsSpace(s[0]) {
      var rest := LStripCuts(s[1..]);
      a := [s[0]] + rest;
    } else {
      a := [];
    }
  }

  lemma {:induction false} RStripCuts(s: string) returns (b: string)
    ensures s == RStrip(s) + b && AllSpace(b)
  {
    if s != [] && IsSpace(s[|s| - 1]) {
      var rest := RStripCuts(s[..|s| - 1]);
      b := rest + [s[|s| - 1]];
    } else {
      b := [];
    }
  }

  /** Stripping cuts white space off both ends and nothing else. */
  lemma StripCuts(s: string) returns (a: string, b: string)
    ensures s == a + Strip(s) + b && AllSpace(a) && AllSpace(b) && Trimmed(Strip(s))
  {
    hide IsSpace, LStrip, RStrip, Trimmed, AllSpace;
    a := LStripCuts(s);
    b := RStripCuts(LStrip(s));
    StripTrims(s);
    assert s == a + (RStrip(LStrip(s)) + b) == a + RStrip(LStrip(s)) + b;
  }

  lemma StripIsEmptyIff(s: string)
    ensures Strip(s) == [] <==> !exists i :: 0 <= i < |s| && !IsSpace(s[i])
  {
    hide Strip, IsSpace;
    var a, b := StripCuts(s);
    var t := Strip(s);
    if t == [] {
      assert forall i :: 0 <= i < |s| ==> s[i] == (a + b)[i];
      assert a + b == s;
      forall i | 0 <= i < |s| ensures IsSpace(s[i]) {
        assert s[i] == if i < |a| then a[i] else b[i - |a|];
      }
    } else {
      assert s[|a|] == t[0];
    }
  }

  /** A normalised symbol is blank only if it is empty. */
  lemma NormalizedBlank(s: string)
    requires Normalize(s) == s
    ensures Strip(s) == [] <==> s == ""
  {
    assert |Normalize(s)| == |Strip(s)|;
  }

  /** Normalising twice changes nothing, so a built symbol passes the ledger's own check. */
  lemma NormalizeIdempotent(s: string)
    ensures Normalize(Normalize(s)) == Normalize(s)
  {
    StripTrims(s);
    var t := Normalize(s);
    StripTrims(t);
    assert Upper(t) == t;
  }

  /** The ASCII characters Python strips. */
  const SPACES: string := " \t\n\U{0b}\U{0c}\r\U{1c}\U{1d}\U{1e}\U{1f}"

  lemma SpacesAre(c: char)
    ensures IsSpace(c) <==> c in SPACES
  {}

  /** A normalised text has each small letter of what stripping leaves made the capital of the same place in the alphabet. */
  lemma NormalizeIs(s: string) returns (a: string, kept: string, b: string)
    ensures s == a + kept + b && (forall c :: c in a || c in b ==> c in SPACES)
    ensures kept != [] ==> kept[0] !in SPACES && kept[|kept| - 1] !in SPACES
    ensures |Normalize(s)| == |kept|
    ensures forall i :: 0 <= i < |kept| && 'a' <= kept[i] <= 'z' ==>
              'A' <= Normalize(s)[i] <= 'Z' && Normalize(s)[i] as int - 'A' as int == kept[i] as int - 'a' as int
    ensures forall i :: 0 <= i < |kept| && !('a' <= kept[i] <= 'z') ==> Normalize(s)[i] == kept[i]
  {
    hide Strip, IsSpace;
    a, b := StripCuts(s);
    kept := Strip(s);
    forall c ensures IsSpace(c) <==> c in SPACES {
      SpacesAre(c);
    }
  }

  /** One printable letter. */
  lemma OneLetter(s: string)
    requires |s| == 1 && !IsSpace(s[0])
    ensures Strip(s) == s && !('a' <= s[0] <= 'z') ==> Normalize(s) == s && Upper(s) == s
    ensures Strip(s) == s
  {
    StripTrims(s);
    assert !('a' <= s[0] <= 'z') ==> Upper(s) == s;
  }

  /** Python's `<=` on strings. */
  predicate TextLe(a: string, b: string) {
    a == [] || (b != [] && (a[0] < b[0] || (a[0] == b[0] && TextLe(a[1..], b[1..]))))
  }

  lemma {:induction false} TextLeTotal(a: string, b: string)
    ensures TextLe(a, b) || TextLe(b, a)
    ensures TextLe(a, b) && TextLe(b, a) ==> a == b
  {
    if a != [] && b != [] && a[0] == b[0] {
      TextLeTotal(a[1..], b[1..]);
      assert a == [a[0]] + a[1..] && b == [b[0]] + b[1..];
    }
  }

  lemma {:induction false} TextLeTransitive(a: string, b: string, c: string)
    requires TextLe(a, b) && TextLe(b, c)
    ensures TextLe(a, c)
  {
    if a != [] && a[0] == b[0] && b[0] == c[0] {
      TextLeTransitive(a[1..], b[1..], c[1..]);
    }
  }

  lemma TextLeIsTotalOrder()
    ensures TotalOrder(TextLe)
  {
    forall a, b ensures (TextLe(a, b) || TextLe(b, a)) && (TextLe(a, b) && TextLe(b, a) ==> a == b) {
      TextLeTotal(a, b);
    }
    forall a, b, c | TextLe(a, b) && TextLe(b, c) ensures TextLe(a, c) {
      TextLeTransitive(a, b, c);
    }
  }

  /** Up to k the texts agree, and there the first has the smaller character. */
  predicate DiffersAt(a: string, b: string, k: nat) {
    k < |a| && k < |b| && a[..k] == b[..k] && a[k] < b[k]
  }

  lemma DiffersLater(a: string, b: string, k: nat)
    requires a != [] && b != [] && a[0] == b[0]
    ensures DiffersAt(a[1..], b[1..], k) <==> DiffersAt(a, b, k + 1)
  {
    if k < |a[1..]| && k < |b[1..]| {
      assert a[..k + 1] == [a[0]] + a[1..][..k] && b[..k + 1] == [b[0]] + b[1..][..k];
      assert a[1..][..k] == a[..k + 1][1..] && b[1..][..k] == b[..k + 1][1..];
    }
  }

  lemma HeadsAgree(a: string, b: string, k: nat)
    requires DiffersAt(a, b, k) && k > 0
    ensures a[0] == b[0]
  {
    assert a[..k][0] == b[..k][0];
  }

  /** A text precedes those that extend it, and those that first differ in a later character. */
  lemma {:induction false} TextLeIsLexicographic(a: string, b: string)
    ensures TextLe(a, b) <==> a <= b || exists k :: DiffersAt(a, b, k)
  {
    if a != [] && b != [] {
      forall k: nat | DiffersAt(a, b, k) && k > 0 ensures a[0] == b[0] {
        HeadsAgree(a, b, k);
      }
      if a[0] == b[0] {
        TextLeIsLexicographic(a[1..], b[1..]);
        assert a <= b <==> a[1..] <= b[1..] by {
          assert a == [a[0]] + a[1..] && b == [b[0]] + b[1..];
        }
        forall k: nat {
          DiffersLater(a, b, k);
        }
        if k: nat :| DiffersAt(a, b, k) {
          assert k > 0;
          assert DiffersAt(a[1..], b[1..], k - 1);
        }
      } else {
        assert a[0] < b[0] ==> DiffersAt(a, b, 0);
      }
    }
  }

  /** `tuple(sorted(symbols))` for a set of symbols. */
  function SortedTexts(s: set<string>): (r: seq<string>)
    ensures forall x :: x in r <==> x in s
    ensures forall i, j :: 0 <= i < j < |r| ==> r[i] != r[j] && TextLe(r[i], r[j])
    ensures |r| == |s|
  {
    TextLeIsTotalOrder();
    SortedSet(s, TextLe)
  }

  lemma Singleton(s: string)
    ensures SortedTexts({s}) == [s]
  {
    var r := SortedTexts({s});
    assert r[0] in r;
  }

  predicate IntLe(a: int, b: int) {
    a <= b
  }

  function SortedInts(s: set<int>): (r: seq<int>)
    ensures forall x :: x in r <==> x in s
    ensures forall i, j :: 0 <= i < j < |r| ==> r[i] < r[j]
    ensures |r| == |s|
  {
    SortedSet(s, IntLe)
  }

  /** The ascending dates of a set start with the ascending dates up to any bound. */
  lemma SortedIntsSplit(s: set<int>, d: int)
    ensures SortedInts(s) == SortedInts(set x | x in s && x <= d) + SortedInts(set x | x in s && x > d)
  {
    var lo := set x | x in s && x <= d;
    assert s - lo == set x | x in s && x > d;
    SortedSetSplit(s, lo, IntLe);
  }
}
