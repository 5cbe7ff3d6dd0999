/** The colour parser and the list comparison of utils/util.py. */
module Util {
  import opened Results
  import opened Seqs

  // ---------------------------------------------------------------------------
  // Hexadecimal digits, as Python's int(t, 16) reads them
  // ---------------------------------------------------------------------------

  predicate IsHexDigit(c: char) {
    '0' <= c <= '9' || 'a' <= c <= 'f' || 'A' <= c <= 'F'
  }

  predicate AllHex(t: string) {
    forall i | 0 <= i < |t| :: IsHexDigit(t[i])
  }

  function DigitValue(c: char): (v: nat)
    requires IsHexDigit(c)
    ensures v < 16
  {
    if '0' <= c <= '9' then c as int - '0' as int
    else if 'a' <= c <= 'f' then c as int - 'a' as int + 10
    else c as int - 'A' as int + 10
  }

  function Pow16(k: nat): (p: nat)
    ensures p >= 1
  {
    if k == 0 then 1 else 16 * Pow16(k - 1)
  }

  /** The number a string of hex digits denotes, most significant digit first. */
  function HexValue(t: string): (v: nat)
    requires AllHex(t)
    ensures v < Pow16(|t|)
  {
    if t == [] then 0
    else
      assert AllHex(t[..|t| - 1]);
      16 * HexValue(t[..|t| - 1]) + DigitValue(t[|t| - 1])
  }

  /** `int(t, 16)`: fails on the empty string and on any non-hex character.
      Python's further leniency (a sign, surrounding whitespace, underscores,
      a `0x` prefix) is not part of this model. */
  function ParseHex(t: string): (r: Result<nat>)
    ensures r.Ok? <==> t != [] && AllHex(t)
    ensures r.Ok? ==> r.value == HexValue(t) && r.value < Pow16(|t|)
    ensures r.Err? ==> r.error == ValueError
  {
    if t != [] && AllHex(t) then Ok(HexValue(t)) else Err(ValueError)
  }

  // ---------------------------------------------------------------------------
  // hex_to_rgb
  // ---------------------------------------------------------------------------

  /** An (R, G, B) tuple. */
  datatype Rgb = Rgb(r: int, g: int, b: int)

  predicate InByteRange(c: Rgb) {
    0 <= c.r <= 255 && 0 <= c.g <= 255 && 0 <= c.b <= 255
  }

  /** `hex_to_rgb` with the evident intent: `#` followed by exactly six hex
      digits, each pair read in base 16, in either case. */
  function HexToRgb(s: string): (res: Result<Rgb>)
    ensures (|s| != 7 || s[0] != '#') ==> res == Err(ValueError)
    ensures res.Ok? <==> |s| == 7 && s[0] == '#' && AllHex(s[1..])
    ensures res.Err? ==> res.error == ValueError
    ensures res.Ok? ==> InByteRange(res.value)
  {
    if |s| != 7 || s[0] != '#' then Err(ValueError)
    else
      var h := s[1..];
      if ParseHex(h).Err? then Err(ValueError)
      else
        assert AllHex(h[0..2]) && AllHex(h[2..4]) && AllHex(h[4..6]);
        Ok(Rgb(HexValue(h[0..2]), HexValue(h[2..4]), HexValue(h[4..6])))
  }

  /** The lower-case hex digit for 0..15. */
  function HexChar(d: nat): (c: char)
    requires d < 16
    ensures IsHexDigit(c) && DigitValue(c) == d
  {
    if d < 10 then ('0' as int + d) as char else ('a' as int + d - 10) as char
  }

  /** Two lower-case hex digits for a byte. */
  function ByteToHex(v: nat): (t: string)
    requires v < 256
    ensures |t| == 2 && AllHex(t)
  {
    [HexChar(v / 16), HexChar(v % 16)]
  }

  /** The canonical `#rrggbb` spelling of a colour: the inverse of HexToRgb. */
  function RgbToHex(c: Rgb): (s: string)
    requires InByteRange(c)
    ensures |s| == 7 && s[0] == '#'
  {
    "#" + ByteToHex(c.r) + ByteToHex(c.g) + ByteToHex(c.b)
  }

  lemma ByteHexRoundTrip(v: nat)
    requires v < 256
    ensures HexValue(ByteToHex(v)) == v
  {
    var t := ByteToHex(v);
    assert t[..1] == [HexChar(v / 16)];
    assert t[..1][..0] == [];
  }

  /** Printing a colour and parsing it back gives the colour. */
  lemma RgbHexRoundTrip(c: Rgb)
    requires InByteRange(c)
    ensures HexToRgb(RgbToHex(c)) == Ok(c)
  {
    var s := RgbToHex(c);
    var x, y, z := ByteToHex(c.r), ByteToHex(c.g), ByteToHex(c.b);
    var h := s[1..];
    assert h == x + y + z by {
      assert s == "#" + (x + y + z);
    }
    assert h[0..2] == x && h[2..4] == y && h[4..6] == z;
    ByteHexRoundTrip(c.r);
    ByteHexRoundTrip(c.g);
    ByteHexRoundTrip(c.b);
  }

  // ---------------------------------------------------------------------------
  // Case
  // ---------------------------------------------------------------------------

  /** ASCII lower-casing of one character, standing for Python's `str.lower`. */
  function LowerChar(c: char): (d: char)
    ensures 'A' <= c <= 'Z' ==> d as int == c as int + 32
    ensures !('A' <= c <= 'Z') ==> d == c
  {
    if 'A' <= c <= 'Z' then (c as int + 32) as char else c
  }

  function Lower(s: string): (t: string)
    ensures |t| == |s|
    ensures forall i | 0 <= i < |s| :: t[i] == LowerChar(s[i])
  {
    seq(|s|, i requires 0 <= i < |s| => LowerChar(s[i]))
  }

  lemma LowerKeepsDigitValue(c: char)
    ensures IsHexDigit(LowerChar(c)) <==> IsHexDigit(c)
    ensures IsHexDigit(c) ==> DigitValue(LowerChar(c)) == DigitValue(c)
  {
  }

  lemma {:induction false} LowerKeepsHexValue(t: string)
    requires AllHex(t)
    ensures AllHex(Lower(t)) && HexValue(Lower(t)) == HexValue(t)
  {
    if t != [] {
      var init := t[..|t| - 1];
      assert AllHex(init);
      LowerKeepsHexValue(init);
      assert Lower(t)[..|t| - 1] == Lower(init);
      LowerKeepsDigitValue(t[|t| - 1]);
    }
  }

  lemma LowerSlice(s: string, i: nat, j: nat)
    requires i <= j <= |s|
    ensures Lower(s)[i..j] == Lower(s[i..j])
  {
    var a, b := Lower(s)[i..j], Lower(s[i..j]);
    forall k | 0 <= k < j - i ensures a[k] == b[k] {
      assert a[k] == Lower(s)[i + k] == LowerChar(s[i + k]);
      assert b[k] == LowerChar(s[i..j][k]);
    }
  }

  /** Lower-casing two hex digits keeps them hex and keeps their value. */
  lemma LowerPair(s: string, i: nat)
    requires i + 2 <= |s| && AllHex(s[i..i + 2])
    ensures AllHex(Lower(s)[i..i + 2]) && HexValue(Lower(s)[i..i + 2]) == HexValue(s[i..i + 2])
  {
    LowerSlice(s, i, i + 2);
    LowerKeepsHexValue(s[i..i + 2]);
  }

  /** HexToRgb does not see letter case: `#F245E1` and `#f245e1` are the same colour. */
  lemma HexToRgbIgnoresCase(s: string)
    ensures HexToRgb(Lower(s)) == HexToRgb(s)
  {
    var l := Lower(s);
    if |s| != 7 || s[0] != '#' {
      assert |l| != 7 || l[0] != '#';
    } else {
      assert l[0] == '#';
      var h, lh := s[1..], l[1..];
      assert lh == Lower(h) by {
        LowerSlice(s, 1, 7);
      }
      assert AllHex(lh) <==> AllHex(h) by {
        forall i | 0 <= i < 6 ensures IsHexDigit(lh[i]) <==> IsHexDigit(h[i]) {
          LowerKeepsDigitValue(h[i]);
        }
      }
      if AllHex(h) {
        assert AllHex(h[0..2]) && AllHex(h[2..4]) && AllHex(h[4..6]);
        LowerPair(h, 0);
        LowerPair(h, 2);
        LowerPair(h, 4);
        HexToRgbOk(s);
        HexToRgbOk(l);
      }
    }
  }

  /** The colour HexToRgb reads from an accepted string. */
  lemma HexToRgbOk(s: string)
    requires |s| == 7 && s[0] == '#' && AllHex(s[1..])
    ensures var h := s[1..];
      && AllHex(h[0..2]) && AllHex(h[2..4]) && AllHex(h[4..6])
      && HexToRgb(s) == Ok(Rgb(HexValue(h[0..2]), HexValue(h[2..4]), HexValue(h[4..6])))
  {
    var h := s[1..];
    assert AllHex(h[0..2]) && AllHex(h[2..4]) && AllHex(h[4..6]);
  }

  /** A colour that parses is printed back as the lower-case spelling of its input. */
  lemma HexToRgbCanonical(s: string)
    requires HexToRgb(s).Ok?
    ensures RgbToHex(HexToRgb(s).value) == Lower(s)
  {
    var h := s[1..];
    var p0, p1, p2 := h[0..2], h[2..4], h[4..6];
    assert AllHex(p0) && AllHex(p1) && AllHex(p2);
    var c := HexToRgb(s).value;
    assert c == Rgb(HexValue(p0), HexValue(p1), HexValue(p2));
    assert ByteToHex(c.r) == Lower(p0) by { PairToHexIsLower(p0); }
    assert ByteToHex(c.g) == Lower(p1) by { PairToHexIsLower(p1); }
    assert ByteToHex(c.b) == Lower(p2) by { PairToHexIsLower(p2); }
    assert s == "#" + p0 + p1 + p2;
    assert Lower(s) == Lower("#") + Lower(p0) + Lower(p1) + Lower(p2) by {
      LowerConcat("#" + p0 + p1, p2);
      LowerConcat("#" + p0, p1);
      LowerConcat("#", p0);
    }
    assert Lower("#") == "#";
  }

  lemma {:induction false} LowerConcat(a: string, b: string)
    ensures Lower(a + b) == Lower(a) + Lower(b)
  {
    var l, r := Lower(a + b), Lower(a) + Lower(b);
    forall k | 0 <= k < |a| + |b| ensures l[k] == r[k] {
      assert l[k] == LowerChar((a + b)[k]);
    }
  }

  lemma PairToHexIsLower(pair: string)
    requires |pair| == 2 && AllHex(pair)
    ensures HexValue(pair) < 256 && ByteToHex(HexValue(pair)) == Lower(pair)
  {
    assert pair[..1] == [pair[0]] && pair[..1][..0] == [];
    var hi, lo := DigitValue(pair[0]), DigitValue(pair[1]);
    var v := HexValue(pair);
    assert v == 16 * hi + lo;
    assert v / 16 == hi && v % 16 == lo by {
      DivMod16(hi, lo);
    }
    assert ByteToHex(v) == [HexChar(hi), HexChar(lo)];
    HexCharOfLower(pair[0]);
    HexCharOfLower(pair[1]);
    var l := Lower(pair);
    assert l[0] == LowerChar(pair[0]) && l[1] == LowerChar(pair[1]);
    assert l == [l[0], l[1]];
  }

  lemma DivMod16(hi: nat, lo: nat)
    requires hi < 16 && lo < 16
    ensures (16 * hi + lo) / 16 == hi && (16 * hi + lo) % 16 == lo
  {
  }

  lemma HexCharOfLower(c: char)
    requires IsHexDigit(c)
    ensures HexChar(DigitValue(c)) == LowerChar(c)
  {
  }

  /** The colours the source's tests parse. */
  lemma HexToRgbWhite()
    ensures HexToRgb("#ffffff") == Ok(Rgb(255, 255, 255))
  {
    var h := "#ffffff"[1..];
    assert AllHex(h) by {
      forall i | 0 <= i < 6 ensures IsHexDigit(h[i]) {}
    }
    assert h[0..2] == ['f', 'f'] && h[2..4] == ['f', 'f'] && h[4..6] == ['f', 'f'];
    HexValueOfPair('f', 'f');
  }

  lemma HexToRgbMixedCase()
    ensures HexToRgb("#F245E1") == Ok(Rgb(242, 69, 225))
  {
    var h := "#F245E1"[1..];
    assert AllHex(h) by {
      forall i | 0 <= i < 6 ensures IsHexDigit(h[i]) {}
    }
    assert h[0..2] == ['F', '2'] && h[2..4] == ['4', '5'] && h[4..6] == ['E', '1'];
    HexValueOfPair('F', '2');
    HexValueOfPair('4', '5');
    HexValueOfPair('E', '1');
  }

  /** A non-hexadecimal digit, a missing `#` and a wrong length are refused. */
  lemma HexToRgbRejects()
    ensures HexToRgb("#ff3X45") == Err(ValueError)
    ensures HexToRgb("ffffff") == Err(ValueError)
    ensures HexToRgb("asdfefasdffe") == Err(ValueError)
  {
    assert !IsHexDigit("#ff3X45"[1..][3]);
  }

  // ---------------------------------------------------------------------------
  // hex_to_rgb as the source writes it
  // ---------------------------------------------------------------------------

  /** Python's `s.lstrip('#')`: every leading `#` is removed. */
  function LStripHash(s: string): (r: string)
    ensures |r| <= |s| && r == s[|s| - |r|..]
    ensures r == [] || r[0] != '#'
    ensures forall i | 0 <= i < |s| - |r| :: s[i] == '#'
  {
    if s != [] && s[0] == '#' then LStripHash(s[1..]) else s
  }

  /** Python's slice `t[i:j]`, clamped to the string. */
  function Slice(t: string, i: nat, j: nat): (r: string)
    requires i <= j
    ensures |r| == (if j <= |t| then j - i else if i <= |t| then |t| - i else 0)
  {
    if j <= |t| then t[i..j] else if i <= |t| then t[i..] else []
  }

  /** `hex_to_rgb` exactly as utils/util.py writes it: `lstrip('#')` removes
      every leading `#`, so `##` followed by five hex digits also passes, and the
      last slice then holds a single digit. */
  function HexToRgbAsWritten(s: string): (res: Result<Rgb>)
    ensures (|s| != 7 || s[0] != '#') ==> res == Err(ValueError)
    ensures res.Ok? <==> |s| == 7 && s[0] == '#' && 5 <= |LStripHash(s)| && AllHex(LStripHash(s))
    ensures res.Ok? ==> InByteRange(res.value)
    ensures res.Err? ==> res.error == ValueError
  {
    if |s| != 7 || s[0] != '#' then Err(ValueError)
    else
      var h := LStripHash(s);
      assert |h| <= 6;
      ParseStripped(h)
  }

  /** What a colour accepted by `hex_to_rgb` as written holds: the values of
      the slices `[0:2]`, `[2:4]` and `[4:6]` of the stripped string. */
  lemma HexToRgbAsWrittenValues(s: string)
    requires HexToRgbAsWritten(s).Ok?
    ensures var h, c := LStripHash(s), HexToRgbAsWritten(s).value;
      && 5 <= |h| <= 6 && AllHex(h[0..2]) && AllHex(h[2..4]) && AllHex(h[4..])
      && c == Rgb(HexValue(h[0..2]), HexValue(h[2..4]), HexValue(h[4..]))
  {
    var h := LStripHash(s);
    assert HexToRgbAsWritten(s) == ParseStripped(h);
  }

  /** The part of `hex_to_rgb` after `lstrip('#')`: the whole string must
      parse as hex, and then each of the slices `[0:2]`, `[2:4]`, `[4:6]`. */
  function ParseStripped(h: string): (res: Result<Rgb>)
    requires |h| <= 6
    ensures res.Ok? <==> 5 <= |h| && AllHex(h)
    ensures res.Ok? ==> InByteRange(res.value)
    ensures res.Ok? ==> AllHex(h[0..2]) && AllHex(h[2..4]) && AllHex(h[4..])
    ensures res.Ok? ==>
      && res.value.r == HexValue(h[0..2])
      && res.value.g == HexValue(h[2..4])
      && res.value.b == HexValue(h[4..])
    ensures res.Err? ==> res.error == ValueError
  {
    if ParseHex(h).Err? then Err(ValueError)
    else
      StrippedPairs(h);
      match (ParseHex(Slice(h, 0, 2)), ParseHex(Slice(h, 2, 4)), ParseHex(Slice(h, 4, 6)))
      case (Ok(r), Ok(g), Ok(b)) => Ok(Rgb(r, g, b))
      case _ => Err(ValueError)
  }

  /** What the three slices of a stripped string of one to six hex digits
      parse to: all three succeed, each below 256, exactly when there are at
      least five digits. */
  lemma StrippedPairs(h: string)
    requires 0 < |h| <= 6 && AllHex(h)
    ensures |h| < 5 ==> ParseHex(Slice(h, 2, 4)).Err? || ParseHex(Slice(h, 4, 6)).Err?
    ensures 5 <= |h| ==>
      && ParseHex(Slice(h, 0, 2)) == Ok(HexValue(h[0..2]))
      && ParseHex(Slice(h, 2, 4)) == Ok(HexValue(h[2..4]))
      && ParseHex(Slice(h, 4, 6)) == Ok(HexValue(h[4..]))
    ensures 5 <= |h| ==> HexValue(h[0..2]) < 256 && HexValue(h[2..4]) < 256 && HexValue(h[4..]) < 256
  {
    if |h| < 5 {
      assert Slice(h, 4, 6) == [];
    } else {
      assert Slice(h, 0, 2) == h[0..2] && Slice(h, 2, 4) == h[2..4] && Slice(h, 4, 6) == h[4..];
      assert AllHex(h[0..2]) && AllHex(h[2..4]) && AllHex(h[4..]);
      assert Pow16(2) == 256 && Pow16(1) == 16;
    }
  }

  lemma HexValueOfPair(a: char, b: char)
    requires IsHexDigit(a) && IsHexDigit(b)
    ensures HexValue([a, b]) == 16 * DigitValue(a) + DigitValue(b)
    ensures HexValue([a]) == DigitValue(a)
  {
    assert [a, b][..1] == [a];
    assert [a][..0] == [];
  }

  /** `lstrip('#')` removes a run of `#` in front of a string that does not start with one. */
  lemma {:induction false} LStripHashSkips(hashes: string, t: string)
    requires forall i | 0 <= i < |hashes| :: hashes[i] == '#'
    requires t == [] || t[0] != '#'
    ensures LStripHash(hashes + t) == t
  {
    if hashes != [] {
      assert (hashes + t)[1..] == hashes[1..] + t;
      LStripHashSkips(hashes[1..], t);
    }
  }

  lemma StripDoubleHash()
    ensures LStripHash("##abcde") == "abcde"
  {
    LStripHashSkips("##", "abcde");
    assert "##" + "abcde" == "##abcde";
  }

  lemma ParseDoubleHashPieces()
    ensures ParseHex("abcde") == Ok(HexValue("abcde"))
    ensures ParseHex(Slice("abcde", 0, 2)) == Ok(171)
    ensures ParseHex(Slice("abcde", 2, 4)) == Ok(205)
    ensures ParseHex(Slice("abcde", 4, 6)) == Ok(14)
  {
    var h := "abcde";
    assert AllHex(h) by {
      forall i | 0 <= i < 5 ensures IsHexDigit(h[i]) {}
    }
    assert ParseHex(Slice(h, 0, 2)) == Ok(171) by {
      assert Slice(h, 0, 2) == ['a', 'b'];
      HexValueOfPair('a', 'b');
    }
    assert ParseHex(Slice(h, 2, 4)) == Ok(205) by {
      assert Slice(h, 2, 4) == ['c', 'd'];
      HexValueOfPair('c', 'd');
    }
    assert ParseHex(Slice(h, 4, 6)) == Ok(14) by {
      assert Slice(h, 4, 6) == ['e'];
      HexValueOfPair('e', 'e');
    }
  }

  /** The source accepts `##abcde`, a colour the docstring's `#XXXXXX` form excludes. */
  lemma DoubleHashAccepted()
    ensures HexToRgbAsWritten("##abcde") == Ok(Rgb(171, 205, 14))
    ensures HexToRgb("##abcde") == Err(ValueError)
  {
    StripDoubleHash();
    ParseDoubleHashPieces();
    var s := "##abcde";
    assert !IsHexDigit(s[1..][0]);
  }

  /** Whenever the character after the first `#` is not itself `#`, the source
      and the corrected parser agree: the double `#` is the only discrepancy. */
  lemma AsWrittenAgreesOnSingleHash(s: string)
    requires |s| < 2 || s[1] != '#'
    ensures HexToRgbAsWritten(s) == HexToRgb(s)
  {
    if |s| == 7 && s[0] == '#' {
      assert LStripHash(s[1..]) == s[1..];
      var h := s[1..];
      assert Slice(h, 0, 2) == h[0..2] && Slice(h, 2, 4) == h[2..4] && Slice(h, 4, 6) == h[4..6];
      if AllHex(h) {
        assert AllHex(h[0..2]) && AllHex(h[2..4]) && AllHex(h[4..6]);
      }
    }
  }

  // ---------------------------------------------------------------------------
  // compare_lists
  // ---------------------------------------------------------------------------

  /** An argument of `compare_lists`: a Python list or any other value. */
  datatype PyValue<T> = PyList(items: seq<T>) | NotAList

  /** `collections.Counter(s)`: how often each element occurs. */
  function Counter<T(==)>(s: seq<T>): map<T, nat> {
    if s == [] then map[]
    else
      var c := Counter(s[..|s| - 1]);
      var x := s[|s| - 1];
      c[x := (if x in c then c[x] else 0) + 1]
  }

  lemma {:induction false} CounterIsMultiset<T>(s: seq<T>, x: T)
    ensures x in Counter(s) <==> x in multiset(s)
    ensures x in Counter(s) ==> Counter(s)[x] == multiset(s)[x]
  {
    if s != [] {
      var init := s[..|s| - 1];
      assert s == init + [s[|s| - 1]];
      CounterIsMultiset(init, x);
    }
  }

  lemma CounterEqualIffMultiset<T>(s: seq<T>, t: seq<T>)
    ensures Counter(s) == Counter(t) <==> multiset(s) == multiset(t)
  {
    if multiset(s) == multiset(t) {
      forall x ensures (x in Counter(s) <==> x in Counter(t)) && (x in Counter(s) ==> Counter(s)[x] == Counter(t)[x]) {
        CounterIsMultiset(s, x);
        CounterIsMultiset(t, x);
      }
      MapsEqual(Counter(s), Counter(t));
    }
    if Counter(s) == Counter(t) {
      forall x ensures multiset(s)[x] == multiset(t)[x] {
        CounterIsMultiset(s, x);
        CounterIsMultiset(t, x);
      }
    }
  }

  lemma MapsEqual<K, V>(m: map<K, V>, n: map<K, V>)
    requires forall x :: (x in m <==> x in n) && (x in m ==> m[x] == n[x])
    ensures m == n
  {
  }

  /** `compare_lists`: both arguments are lists holding the same elements the
      same number of times, in any order. */
  function CompareLists<T(==)>(s: PyValue<T>, t: PyValue<T>): (r: bool)
    ensures r <==> s.PyList? && t.PyList? && multiset(s.items) == multiset(t.items)
  {
    if !s.PyList? || !t.PyList? then false
    else
      CounterEqualIffMultiset(s.items, t.items);
      |s.items| == |t.items| && Counter(s.items) == Counter(t.items)
  }

  /** On lists, compare_lists is an equivalence, and a non-list is never equal to anything. */
  lemma CompareListsProperties<T>(s: seq<T>, t: seq<T>, u: seq<T>)
    ensures CompareLists(PyList(s), PyList(s))
    ensures CompareLists(PyList(s), PyList(t)) == CompareLists(PyList(t), PyList(s))
    ensures CompareLists(PyList(s), PyList(t)) && CompareLists(PyList(t), PyList(u)) ==> CompareLists(PyList(s), PyList(u))
    ensures !CompareLists(PyList(s), NotAList) && !CompareLists(NotAList, PyList(s))
    ensures !CompareLists<T>(NotAList, NotAList)
  {
  }

  /** compare_lists ignores order and counts duplicates: swapping two entries
      keeps a list equal to itself, and one more copy of an entry does not. */
  lemma CompareListsOrderAndCount<T>(s: seq<T>, i: nat, j: nat)
    requires i < |s| && j < |s|
    ensures CompareLists(PyList(s), PyList(s[i := s[j]][j := s[i]]))
    ensures !CompareLists(PyList(s), PyList(s + [s[i]]))
  {
    var w := s[i := s[j]][j := s[i]];
    if i != j {
      assert multiset(w) == multiset(s)[s[i] := multiset(s)[s[i]] - 1 + 1];
    }
    assert multiset(s + [s[i]])[s[i]] == multiset(s)[s[i]] + 1;
  }

  lemma CompareListsExamples()
    ensures CompareLists(PyList([1, 2, 2]), PyList([1, 2, 2]))
    ensures !CompareLists(PyList([1, 2, 2]), PyList([1, 2, 4]))
    ensures !CompareLists(PyList([4, 5]), PyList([4, 5, 5]))
    ensures !CompareLists(PyList([1, 4]), NotAList)
  {
    assert multiset([1, 2, 2])[4] == 0;
    assert multiset([4, 5])[5] == 1;
  }
}
