/** The byte search the opacity check is built on, and what it says about text.

    The check looks for a payload's bytes inside a ciphertext's bytes. When
    both come from text, a byte match must be a text match: UTF-8 is
    self-synchronising, so no match can begin or end inside a character.
  */
module ByteSearch {
  import opened Sequences
  import opened Utf8

  /** `n` occurs in `h` at `i`. */
  ghost predicate OccursAt<T>(h: seq<T>, n: seq<T>, i: nat)
  {
    i + |n| <= |h| && h[i..i + |n|] == n
  }

  ghost predicate Occurs<T>(h: seq<T>, n: seq<T>)
  {
    exists i: nat :: OccursAt(h, n, i)
  }

  ghost predicate Splits<T>(h: seq<T>, before: seq<T>, n: seq<T>, after: seq<T>) { h == before + n + after }

  /** To occur is to stand between what comes before and what comes after. */
  lemma OccursMeans<T(!new)>(h: seq<T>, n: seq<T>)
    ensures Occurs(h, n) <==> exists before, after :: Splits(h, before, n, after)
  {
    if i: nat :| OccursAt(h, n, i) {
      assert Splits(h, h[..i], n, h[i + |n|..]);
    }
    if before, after :| Splits(h, before, n, after) {
      assert OccursAt(h, n, |before|);
    }
  }

  /** The search loops. An empty needle is never found. */
  method ContainsBytes(haystack: seq<Byte>, needle: seq<Byte>) returns (found: bool)
    ensures found <==> needle != [] && Occurs(haystack, needle)
  {
    if |needle| == 0 || |needle| > |haystack| {
      return false;
    }
    var start := 0;
    while start <= |haystack| - |needle|
      invariant forall i: nat :: i < start ==> !OccursAt(haystack, needle, i)
    {
      var match_ := true;
      var k := 0;
      while k < |needle|
        invariant 0 <= k <= |needle|
        invariant match_ && forall j :: 0 <= j < k ==> haystack[start + j] == needle[j]
      {
        if haystack[start + k] != needle[k] {
          match_ := false;
          break;
        }
        k := k + 1;
      }
      if match_ {
        assert haystack[start..start + |needle|] == needle;
        assert OccursAt(haystack, needle, start);
        return true;
      }
      assert haystack[start..start + |needle|][k] != needle[k];
      start := start + 1;
    }
    return false;
  }

  /** The comparison loop. */
  method BytesEqual(a: seq<Byte>, b: seq<Byte>) returns (equal: bool)
    ensures equal <==> a == b
  {
    if |a| != |b| {
      return false;
    }
    for i := 0 to |a|
      invariant a[..i] == b[..i]
    {
      if a[i] != b[i] {
        return false;
      }
    }
    assert a == a[..|a|] && b == b[..|b|];
    return true;
  }

  // ---- sequences ----

  lemma OccursInMiddle<T>(whole: seq<T>, a: seq<T>, b: seq<T>, c: seq<T>)
    requires whole == a + (b + c)
    ensures OccursAt(whole, b, |a|)
  {}

  lemma OccursOpens<T>(h: seq<T>, n: seq<T>, k: nat)
    requires n != [] && OccursAt(h, n, k)
    ensures h[k] == n[0] && n <= h[k..]
  {
    assert h[k..k + |n|][0] == h[k] && h[k..][..|n|] == n;
  }

  lemma PrefixOccurs<T>(h: seq<T>, n: seq<T>, i: nat)
    requires i <= |h| && n <= h[i..]
    ensures OccursAt(h, n, i)
  {
    assert h[i..][..|n|] == h[i..i + |n|];
  }

  // ---- cuts ----

  /** A position that does not part a high surrogate from the low one the
      encoder joins it to. */
  predicate Cut(text: seq<Unit>, i: nat)
    requires i <= |text|
  {
    !(0 < i < |text| && High(text[i - 1]) && Low(text[i]))
  }

  /** A text's bytes: its first character's, then the rest's. */
  lemma EncodeHead(text: seq<Unit>) returns (e: seq<Byte>, rest: seq<Unit>)
    requires text != []
    ensures e == EncodeCode(HeadCode(text)) && rest == text[HeadUnits(text)..]
    ensures Encode(text) == e + Encode(rest)
    ensures e != [] && !Continuation(e[0]) && |e| == LeadWidth(e[0])
    ensures forall k :: 1 <= k < |e| ==> Continuation(e[k])
  {
    e, rest := EncodeCode(HeadCode(text)), text[HeadUnits(text)..];
    EncodeUnfold(text);
    CharacterShape(HeadCode(text));
  }

  /** The encoding splits at a cut. */
  lemma {:induction false} EncodeSplit(text: seq<Unit>, i: nat)
    requires i <= |text| && Cut(text, i)
    ensures Encode(text) == Encode(text[..i]) + Encode(text[i..])
  {
    if i == 0 {
      assert text[0..] == text;
    } else {
      var n := HeadUnits(text);
      var front, rest := text[..i], text[n..];
      assert n <= i && HeadUnits(front) == n && HeadCode(front) == HeadCode(text);
      TakeDrop(text, i, n);
      EncodeSplit(rest, i - n);
      EncodeUnfold(text);
      EncodeUnfold(front);
      Associate(EncodeCode(HeadCode(text)), Encode(rest[..i - n]), Encode(text[i..]));
    }
  }

  /** Equal first bytes announce equally long characters, so a prefix of the
      bytes begins with the same character. */
  lemma SameHead(text: seq<Unit>, n: seq<Unit>)
    requires n != [] && Encode(n) <= Encode(text)
    ensures text != [] && HeadUnits(n) == HeadUnits(text)
    ensures n[..HeadUnits(n)] == text[..HeadUnits(n)]
    ensures Encode(n[HeadUnits(n)..]) <= Encode(text[HeadUnits(n)..])
  {
    var en, rn := EncodeHead(n);
    assert text != [];
    var et, rt := EncodeHead(text);
    assert en[0] == Encode(n)[0] == Encode(text)[0] == et[0];
    SplitPrefix(en, Encode(rn), et, Encode(rt));
    CharacterBytes(HeadCode(n), []);
    CharacterBytes(HeadCode(text), []);
    HeadOfText(n);
    HeadOfText(text);
    assert |n[..HeadUnits(n)]| == |text[..HeadUnits(text)]|;
  }

  /** A prefix of the bytes that is itself an encoding is the encoding of a
      prefix of the text, ending at a cut. */
  lemma {:induction false} PrefixOfText(text: seq<Unit>, n: seq<Unit>)
    requires Encode(n) <= Encode(text)
    ensures n <= text && Cut(text, |n|)
  {
    if n != [] {
      SameHead(text, n);
      var w := HeadUnits(n);
      PrefixOfText(text[w..], n[w..]);
      JoinPrefix(n, text, w);
    }
  }

  /** A byte position that is not a continuation byte is where a character of
      the text begins. */
  lemma {:induction false} Boundary(text: seq<Unit>, k: nat) returns (i: nat)
    requires k < |Encode(text)| && !Continuation(Encode(text)[k])
    ensures i <= |text| && Cut(text, i) && Encode(text[i..]) == Encode(text)[k..]
  {
    if k == 0 {
      i := 0;
      assert text[0..] == text;
    } else {
      var e, rest := EncodeHead(text);
      DropPast(e, Encode(rest), k);
      var j := Boundary(rest, k - |e|);
      i := j + HeadUnits(text);
      assert text[i..] == rest[j..];
    }
  }

  // ---- byte search is text search ----

  /** Where the needle's bytes occur, the needle occurs between two cuts. */
  lemma BytesToText(h: seq<Unit>, n: seq<Unit>, k: nat) returns (i: nat)
    requires n != [] && OccursAt(Encode(h), Encode(n), k)
    ensures OccursAt(h, n, i) && Cut(h, i) && Cut(h, i + |n|)
  {
    var e, rest := EncodeHead(n);
    OccursOpens(Encode(h), Encode(n), k);
    i := Boundary(h, k);
    PrefixOfText(h[i..], n);
    PrefixOccurs(h, n, i);
    CutWithin(h, i, |n|);
  }

  lemma CutWithin(text: seq<Unit>, i: nat, k: nat)
    requires i <= i + k <= |text|
    requires Cut(text, i) && Cut(text[i..], k)
    ensures Cut(text, i + k)
  {}

  lemma TextToBytes(h: seq<Unit>, n: seq<Unit>, i: nat)
    requires OccursAt(h, n, i) && Cut(h, i) && Cut(h, i + |n|)
    ensures OccursAt(Encode(h), Encode(n), |Encode(h[..i])|)
  {
    var from := h[i..];
    EncodeSplit(h, i);
    assert from[..|n|] == n;
    EncodeSplit(from, |n|);
    OccursInMiddle(Encode(h), Encode(h[..i]), Encode(n), Encode(from[|n|..]));
  }

  ghost predicate OccursBetweenCuts(h: seq<Unit>, n: seq<Unit>)
  {
    exists i: nat :: OccursAt(h, n, i) && Cut(h, i) && Cut(h, i + |n|)
  }

  /** For every text and every non-empty needle, unpaired surrogates included:
      the needle's bytes occur exactly when the needle occurs between two cuts. */
  lemma BytesOccurAtCuts(h: seq<Unit>, n: seq<Unit>)
    requires n != []
    ensures Occurs(Encode(h), Encode(n)) <==> OccursBetweenCuts(h, n)
  {
    if Occurs(Encode(h), Encode(n)) {
      var k: nat :| OccursAt(Encode(h), Encode(n), k);
      var i := BytesToText(h, n, k);
    }
    if OccursBetweenCuts(h, n) {
      var i: nat :| OccursAt(h, n, i) && Cut(h, i) && Cut(h, i + |n|);
      TextToBytes(h, n, i);
    }
  }

  /** So for a well-formed needle the byte search is the text search, in any text. */
  lemma ByteSearchIsTextSearch(h: seq<Unit>, n: seq<Unit>)
    requires n != [] && WellFormed16(n)
    ensures Occurs(Encode(h), Encode(n)) <==> Occurs(h, n)
  {
    BytesOccurAtCuts(h, n);
    if Occurs(h, n) {
      var i: nat :| OccursAt(h, n, i);
      assert n[0] == h[i] && n[|n| - 1] == h[i + |n| - 1];
      assert PairedAt(n, 0) && PairedAt(n, |n| - 1);
      assert Cut(h, i) && Cut(h, i + |n|);
    }
  }

  /** A needle that is half of a pair is in the text and not in its bytes: the
      condition on cuts is needed. */
  lemma HalfPairIsNotFound()
    ensures var h, n := [0xd83d, 0xde00], [0xd83d];
      Occurs(h, n) && !Occurs(Encode(h), Encode(n))
  {
    var h: seq<Unit>, n: seq<Unit> := [0xd83d, 0xde00], [0xd83d];
    assert OccursAt(h, n, 0);
    BytesOccurAtCuts(h, n);
    assert !OccursAt(h, n, 1);
  }
}
