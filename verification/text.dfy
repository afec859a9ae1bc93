/** Go's `strings.Fields`: split a string around each run of white space.
    Strings are sequences of Unicode code points (runes); a field is a
    maximal run of non-space runes. */
module Text {

  /** Go's `unicode.IsSpace`: the Latin-1 spaces plus the remaining code
      points of Unicode's White_Space property. */
  predicate IsSpace(c: char)
  {
    || ('\t' <= c <= '\r')
    || c == ' '
    || c == '\U{0085}'
    || c == '\U{00A0}'
    || c == '\U{1680}'
    || ('\U{2000}' <= c <= '\U{200A}')
    || c == '\U{2028}'
    || c == '\U{2029}'
    || c == '\U{202F}'
    || c == '\U{205F}'
    || c == '\U{3000}'
  }

  /** Every rune of `s` is white space (the empty string included). */
  predicate AllSpace(s: string)
  {
    forall i :: 0 <= i < |s| ==> IsSpace(s[i])
  }

  /** A possible field: non-empty and free of white space. */
  predicate IsWord(w: string)
  {
    w != [] && forall i :: 0 <= i < |w| ==> !IsSpace(w[i])
  }

  /** Index of the first space rune of `s`, or `|s|` when there is none. */
  function SpaceIndex(s: string): (k: nat)
    ensures k <= |s|
    ensures forall i :: 0 <= i < k ==> !IsSpace(s[i])
    ensures k < |s| ==> IsSpace(s[k])
  {
    if s == [] || IsSpace(s[0]) then 0 else 1 + SpaceIndex(s[1..])
  }

  /** `strings.Fields(s)`: cut `s` at every space rune and keep the
      non-empty pieces, in order. */
  function Fields(s: string): (r: seq<string>)
    ensures forall i :: 0 <= i < |r| ==> IsWord(r[i])
    decreases |s|
  {
    var k := SpaceIndex(s);
    var head := if k == 0 then [] else [s[..k]];
    if k == |s| then head else head + Fields(s[k + 1..])
  }

  /** `w` occurs in `s` at `i` as a whole token: it is bounded on each side
      by a space rune or by an end of `s`. */
  predicate TokenAt(s: string, w: string, i: int)
  {
    && 0 <= i && i + |w| <= |s|
    && s[i..i + |w|] == w
    && (i == 0 || IsSpace(s[i - 1]))
    && (i + |w| == |s| || IsSpace(s[i + |w|]))
  }

  /** Words joined by single blanks: the inverse of `Fields` on words. */
  function JoinWords(ws: seq<string>): string
  {
    if ws == [] then ""
    else if |ws| == 1 then ws[0]
    else ws[0] + " " + JoinWords(ws[1..])
  }

  lemma {:induction false} SpaceIndexOfAppend(x: string, z: string)
    ensures SpaceIndex(x) < |x| ==> SpaceIndex(x + z) == SpaceIndex(x)
    ensures SpaceIndex(x) == |x| ==> SpaceIndex(x + z) == |x| + SpaceIndex(z)
  {
    if x == [] {
      assert x + z == z;
    } else if !IsSpace(x[0]) {
      assert (x + z)[1..] == x[1..] + z;
      SpaceIndexOfAppend(x[1..], z);
    }
  }

  /** Cutting at one space rune splits the fields in two. */
  lemma {:induction false} FieldsAroundSpace(x: string, c: char, y: string)
    requires IsSpace(c)
    ensures Fields(x + [c] + y) == Fields(x) + Fields(y)
    decreases |x|
  {
    var s := x + [c] + y;
    var k := SpaceIndex(x);
    SpaceIndexOfAppend(x, [c] + y);
    assert s == x + ([c] + y);
    if k == |x| {
      assert SpaceIndex([c] + y) == 0;
      assert SpaceIndex(s) == k;
      assert s[k + 1..] == y;
      assert s[..k] == x;
      assert x[..k] == x;
    } else {
      assert SpaceIndex(s) == k;
      assert s[..k] == x[..k];
      assert s[k + 1..] == x[k + 1..] + [c] + y;
      FieldsAroundSpace(x[k + 1..], c, y);
    }
  }

  /** Five pieces joined by single blanks: their fields, in order. */
  lemma FieldsOfFive(a: string, b: string, c: string, d: string, e: string)
    ensures Fields(a + [' '] + (b + [' '] + (c + [' '] + (d + [' '] + e)))) ==
      Fields(a) + (Fields(b) + (Fields(c) + (Fields(d) + Fields(e))))
  {
    var s4 := d + [' '] + e;
    var s3 := c + [' '] + s4;
    var s2 := b + [' '] + s3;
    FieldsAroundSpace(d, ' ', e);
    FieldsAroundSpace(c, ' ', s4);
    FieldsAroundSpace(b, ' ', s3);
    FieldsAroundSpace(a, ' ', s2);
  }

  /** Two words joined by one blank are two fields. */
  lemma FieldsOfTwoWords(a: string, b: string)
    requires IsWord(a) && IsWord(b)
    ensures Fields(a + [' '] + b) == [a, b]
  {
    FieldsAroundSpace(a, ' ', b);
    FieldsOfWord(a);
    FieldsOfWord(b);
  }

  /** A word is its own single field. */
  lemma FieldsOfWord(w: string)
    requires IsWord(w)
    ensures Fields(w) == [w]
  {
    assert SpaceIndex(w) == |w|;
    assert w[..|w|] == w;
  }

  /** `strings.Fields` gives no field exactly when the string is blank. */
  lemma {:induction false} FieldsEmptyIff(s: string)
    ensures Fields(s) == [] <==> AllSpace(s)
    decreases |s|
  {
    var k := SpaceIndex(s);
    if k < |s| {
      var rest := s[k + 1..];
      FieldsEmptyIff(rest);
      assert forall i :: 0 <= i < |rest| ==> rest[i] == s[k + 1 + i];
      if k == 0 && AllSpace(rest) {
        forall i | 0 <= i < |s| ensures IsSpace(s[i]) {
          if i > 0 { assert s[i] == rest[i - 1]; }
        }
      }
    }
  }

  /** A space rune at `k` lies between non-space runes at `i` and `j`. */
  predicate Gap(s: string, i: int, k: int, j: int)
  {
    0 <= i < k < j < |s| && !IsSpace(s[i]) && IsSpace(s[k]) && !IsSpace(s[j])
  }

  /** `Fields` gives more than one field exactly when a space rune lies
      between two non-space runes. */
  lemma ManyFieldsIff(s: string)
    ensures |Fields(s)| > 1 <==> exists i, k, j :: Gap(s, i, k, j)
  {
    if exists i, k, j :: Gap(s, i, k, j) {
      var i, k, j :| Gap(s, i, k, j);
      ManyFieldsIfGap(s, i, k, j);
    }
    if |Fields(s)| > 1 {
      ManyFieldsOnlyIfGap(s);
    }
  }

  lemma ManyFieldsIfGap(s: string, i: int, k: int, j: int)
    requires Gap(s, i, k, j)
    ensures |Fields(s)| > 1
  {
    var x, y := s[..k], s[k + 1..];
    assert s == x + [s[k]] + y;
    FieldsAroundSpace(x, s[k], y);
    FieldsEmptyIff(x);
    assert !IsSpace(x[i]);
    FieldsEmptyIff(y);
    assert !IsSpace(y[j - k - 1]);
  }

  lemma {:induction false} ManyFieldsOnlyIfGap(s: string)
    requires |Fields(s)| > 1
    ensures exists i, k, j :: Gap(s, i, k, j)
    decreases |s|
  {
    var k := SpaceIndex(s);
    assert k < |s|;
    var rest := s[k + 1..];
    if k == 0 {
      assert Fields(s) == Fields(rest);
      ManyFieldsOnlyIfGap(rest);
      var i, k', j :| Gap(rest, i, k', j);
      assert s[i + 1] == rest[i] && s[k' + 1] == rest[k'] && s[j + 1] == rest[j];
      assert Gap(s, i + 1, k' + 1, j + 1);
    } else {
      assert Fields(s) == [s[..k]] + Fields(rest);
      FieldsEmptyIff(rest);
      var j :| 0 <= j < |rest| && !IsSpace(rest[j]);
      assert s[k + 1 + j] == rest[j];
      assert Gap(s, 0, k, k + 1 + j);
    }
  }

  /** A word is a field of `s` exactly when it occurs in `s` as a whole
      token; so matching is exact and case-sensitive, and a word inside a
      longer run of non-space runes is not a field. */
  lemma {:induction false} TokenIff(s: string, w: string)
    requires IsWord(w)
    ensures w in Fields(s) <==> exists i :: TokenAt(s, w, i)
    decreases |s|
  {
    if exists i :: TokenAt(s, w, i) {
      var i :| TokenAt(s, w, i);
      FieldIfToken(s, w, i);
    }
    if w in Fields(s) {
      TokenIfField(s, w);
    }
  }

  lemma {:induction false} FieldIfToken(s: string, w: string, i: int)
    requires IsWord(w) && TokenAt(s, w, i)
    ensures w in Fields(s)
    decreases |s|
  {
    var k := SpaceIndex(s);
    if i <= k {
      TokenInWordIsWhole(s, w, i, k);
      assert Fields(s)[0] == s[..k];
    } else {
      var rest := s[k + 1..];
      TokenShift(s, w, k, i - k - 1);
      FieldIfToken(rest, w, i - k - 1);
      FieldsAfterSpace(s);
    }
  }

  lemma {:induction false} TokenIfField(s: string, w: string)
    requires IsWord(w) && w in Fields(s)
    ensures exists i :: TokenAt(s, w, i)
    decreases |s|
  {
    var k := SpaceIndex(s);
    if k > 0 && w == s[..k] {
      assert TokenAt(s, w, 0);
    } else {
      FieldsAfterSpace(s);
      var rest := s[k + 1..];
      TokenIfField(rest, w);
      var i :| TokenAt(rest, w, i);
      TokenShift(s, w, k, i);
    }
  }

  /** Unfolding `Fields` once, in the form the token lemmas use. */
  lemma FieldsAfterSpace(s: string)
    ensures var k := SpaceIndex(s);
      forall w :: w in Fields(s) ==> (k > 0 && w == s[..k]) || (k < |s| && w in Fields(s[k + 1..]))
    ensures var k := SpaceIndex(s);
      k < |s| ==> forall w :: w in Fields(s[k + 1..]) ==> w in Fields(s)
  {
    var k := SpaceIndex(s);
    var head := if k == 0 then [] else [s[..k]];
    var r := Fields(s);
    if k < |s| {
      var tail := Fields(s[k + 1..]);
      assert r == head + tail;
      forall w | w in r
        ensures (k > 0 && w == s[..k]) || w in tail
      {
        InConcat(w, head, tail);
      }
      forall w | w in tail
        ensures w in r
      {
        InConcat(w, head, tail);
      }
    } else {
      assert r == head;
    }
  }

  lemma InConcat<T>(x: T, a: seq<T>, b: seq<T>)
    ensures x in a + b <==> x in a || x in b
  {
  }

  /** Tokens after the first space rune are the tokens of the rest. */
  lemma TokenShift(s: string, w: string, k: nat, i: int)
    requires k < |s| && IsSpace(s[k]) && 0 <= i
    ensures TokenAt(s, w, k + 1 + i) <==> TokenAt(s[k + 1..], w, i)
  {
    var rest := s[k + 1..];
    if 0 <= i && i + |w| <= |rest| {
      assert rest[i..i + |w|] == s[k + 1 + i..k + 1 + i + |w|];
      assert i > 0 ==> rest[i - 1] == s[k + i];
      assert i + |w| < |rest| ==> rest[i + |w|] == s[k + 1 + i + |w|];
    }
  }

  /** A token that starts within the leading word of `s` is that word. */
  lemma TokenInWordIsWhole(s: string, w: string, i: int, k: nat)
    requires IsWord(w) && TokenAt(s, w, i)
    requires k == SpaceIndex(s) && i <= k
    ensures i == 0 && |w| == k && w == s[..k]
  {
    assert s[i] == w[0];
    assert forall j :: i <= j < i + |w| ==> s[j] == w[j - i];
  }

  /** Round trip: joining words with single blanks and splitting them again
      gives the words back. */
  lemma {:induction false} FieldsJoinWords(ws: seq<string>)
    requires forall i :: 0 <= i < |ws| ==> IsWord(ws[i])
    ensures Fields(JoinWords(ws)) == ws
  {
    if ws == [] {
    } else if |ws| == 1 {
      FieldsOfWord(ws[0]);
    } else {
      FieldsJoinWords(ws[1..]);
      FieldsAroundSpace(ws[0], ' ', JoinWords(ws[1..]));
      assert ws[0] + " " + JoinWords(ws[1..]) == ws[0] + [' '] + JoinWords(ws[1..]);
      FieldsOfWord(ws[0]);
      assert ws == [ws[0]] + ws[1..];
    }
  }
}
