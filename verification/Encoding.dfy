/** Byte streams made of the encodings of items, one after the other. */
module Encoding {
  import opened Decimals

  function Encoded<T>(items: seq<T>, encode: T -> Bytes): Bytes {
    if |items| == 0 then [] else encode(items[0]) + Encoded(items[1..], encode)
  }

  lemma {:induction false} EncodedAppends<T>(a: seq<T>, b: seq<T>, encode: T -> Bytes)
    ensures Encoded(a + b, encode) == Encoded(a, encode) + Encoded(b, encode)
  {
    if |a| == 0 {
      assert a + b == b;
    } else {
      EncodedAppends(a[1..], b, encode);
      assert (a + b)[1..] == a[1..] + b;
    }
  }

  lemma EncodedOneMore<T>(items: seq<T>, x: T, encode: T -> Bytes)
    ensures Encoded(items + [x], encode) == Encoded(items, encode) + encode(x)
  {
    EncodedAppends(items, [x], encode);
    assert [x][1..] == [] && Encoded([], encode) == [];
    assert encode(x) + [] == encode(x);
  }

  /** Whatever follows, the encoding of an acceptable item gives back the item and what follows. */
  ghost predicate SelfDelimiting<T(!new)>(encode: T -> Bytes, accept: T -> bool) {
    && (forall r :: accept(r) ==> |encode(r)| > 0)
    && (forall r, s, x, y :: accept(r) && accept(s) && encode(r) + x == encode(s) + y ==> r == s && x == y)
  }

  /** The stream of self-delimiting items tells which items it was made of. */
  lemma {:induction false} StreamTellsItems<T(!new)>(a: seq<T>, b: seq<T>, encode: T -> Bytes, accept: T -> bool)
    requires SelfDelimiting(encode, accept)
    requires (forall r :: r in a ==> accept(r)) && forall r :: r in b ==> accept(r)
    requires Encoded(a, encode) == Encoded(b, encode)
    ensures a == b
  {
    if |a| > 0 {
      StreamIsNotEmpty(a, encode, accept);
    }
    if |b| > 0 {
      StreamIsNotEmpty(b, encode, accept);
    }
    if |a| > 0 && |b| > 0 {
      assert encode(a[0]) + Encoded(a[1..], encode) == encode(b[0]) + Encoded(b[1..], encode);
      assert accept(a[0]) && accept(b[0]);
      StreamTellsItems(a[1..], b[1..], encode, accept);
      assert a == [a[0]] + a[1..] && b == [b[0]] + b[1..];
    }
  }

  lemma StreamIsNotEmpty<T(!new)>(items: seq<T>, encode: T -> Bytes, accept: T -> bool)
    requires SelfDelimiting(encode, accept) && |items| > 0 && forall r :: r in items ==> accept(r)
    ensures |Encoded(items, encode)| > 0
  {
    assert accept(items[0]);
  }

  // ── Fields ──────────────────────────────────────────────────────────────────

  /** The first end mark ends the field. */
  lemma FieldEnds(mark: byte, a: Bytes, x: Bytes, s: Bytes)
    requires mark !in a && s == a + [mark] + x
    ensures |a| < |s| && s[|a|] == mark && (forall k :: 0 <= k < |a| ==> s[k] != mark)
    ensures s[..|a|] == a && s[|a| + 1..] == x
  {
    forall k | 0 <= k < |a| ensures s[k] != mark {
      assert s[k] == a[k] && a[k] in a;
    }
  }

  /** A field without the mark, then the mark: both sides of it are determined. */
  lemma FieldsSplit(mark: byte, a: Bytes, x: Bytes, b: Bytes, y: Bytes)
    requires mark !in a && mark !in b && a + [mark] + x == b + [mark] + y
    ensures a == b && x == y
  {
    FieldEnds(mark, a, x, a + [mark] + x);
    FieldEnds(mark, b, y, a + [mark] + x);
    assert |a| == |b|;
  }

  lemma Regroup<T>(a: seq<T>, b: seq<T>, c: seq<T>)
    ensures a + b + c == a + (b + c)
  {
  }
}
