/** What `NdArray.Reshape` decides for a requested shape, as a function of the
  * current length.  Without a -1 entry the request must have the current
  * length.  With a -1 entry the entries are scanned left to right: each other
  * entry must divide the CURRENT LENGTH (not what is left of it after the
  * entries before it), a zero entry fails on the remainder by zero, and a
  * second -1 fails; the -1 is then replaced by the current length divided,
  * entry by entry, by the other entries. */
module Reshaping {
  import opened Shapes
  import opened Errors

  /** Entry `i` of a request with a -1 makes the scan fail. */
  predicate Rejects(len: int, shape: seq<int>, i: int)
    requires 0 <= i < |shape|
  {
    || shape[i] == 0
    || (shape[i] != -1 && CsRem(len, shape[i]) != 0)
    || (shape[i] == -1 && -1 in shape[..i])
  }

  /** The exception raised at a rejecting entry. */
  function RejectionKind(len: int, shape: seq<int>, i: int): Error
    requires 0 <= i < |shape| && Rejects(len, shape, i)
  {
    if shape[i] == 0 then DivideByZero
    else if shape[i] == -1 then MultipleInferred
    else ElementSpecification
  }

  lemma RejectsPrefix(len: int, shape: seq<int>, n: int, i: int)
    requires 0 <= i < n <= |shape|
    ensures Rejects(len, shape[..n], i) == Rejects(len, shape, i)
  {
    assert shape[..n][..i] == shape[..i];
  }

  /** The position of the first rejecting entry, or `|shape|` when none rejects. */
  function FirstRejection(len: int, shape: seq<int>): (r: int)
    ensures 0 <= r <= |shape|
    ensures forall i :: 0 <= i < r ==> !Rejects(len, shape, i)
    ensures forall i :: 0 <= i < r ==> shape[i] != 0
    ensures r < |shape| ==> Rejects(len, shape, r)
  {
    if |shape| == 0 then 0
    else
      var n := |shape| - 1;
      var f := FirstRejection(len, shape[..n]);
      assert forall i :: 0 <= i < n ==> Rejects(len, shape[..n], i) == Rejects(len, shape, i) by {
        forall i | 0 <= i < n { RejectsPrefix(len, shape, n, i); }
      }
      if f < n then f else if Rejects(len, shape, n) then n else n + 1
  }

  /** Position of the first `v` in `s`. */
  function IndexOf(s: seq<int>, v: int): (r: int)
    requires v in s
    ensures 0 <= r < |s| && s[r] == v && v !in s[..r]
  {
    if s[0] == v then 0
    else
      var r := 1 + IndexOf(s[1..], v);
      assert s[..r] == [s[0]] + s[1..][..r - 1];
      r
  }

  /** The size given to the -1 entry: the current length divided, left to
    * right, by every other entry (the source's truncating division). */
  function InferredSize(len: int, shape: seq<int>): int
    requires forall k :: 0 <= k < |shape| ==> shape[k] != 0
  {
    if |shape| == 0 then len
    else
      var n := |shape| - 1;
      var d := InferredSize(len, shape[..n]);
      if shape[n] == -1 then d else CsDiv(d, shape[n])
  }

  /** The outcome of `Reshape(shape)` on a tensor of length `len`: the new
    * shape, or the exception raised. */
  function ReshapeResult(len: int, shape: seq<int>): Result<seq<int>>
  {
    if -1 !in shape then
      if ShapeToArrayLength(shape) == len then Ok(shape) else Err(SizeMismatch)
    else
      var f := FirstRejection(len, shape);
      if f < |shape| then Err(RejectionKind(len, shape, f))
      else
        Ok(shape[IndexOf(shape, -1) := InferredSize(len, shape)])
  }

  /** A second -1 always makes the request fail. */
  lemma SecondInferredFails(len: int, shape: seq<int>, i: int, j: int)
    requires 0 <= i < j < |shape| && shape[i] == -1 && shape[j] == -1
    ensures ReshapeResult(len, shape).Err?
  {
    assert shape[..j][i] == -1;
    assert Rejects(len, shape, j);
  }

  /** An entry that does not divide the current length makes a request with
    * a -1 fail. */
  lemma NonDividingFails(len: int, shape: seq<int>, i: int)
    requires -1 in shape && 0 <= i < |shape| && shape[i] != -1 && shape[i] != 0
    requires CsRem(len, shape[i]) != 0
    ensures ReshapeResult(len, shape).Err?
  {
    assert Rejects(len, shape, i);
  }

  /** Product of the entries other than -1. */
  function Known(shape: seq<int>): (r: int)
    ensures SizesOrWildcard(shape) ==> r > 0
  {
    if |shape| == 0 then 1
    else
      var n := |shape| - 1;
      assert SizesOrWildcard(shape) ==> SizesOrWildcard(shape[..n]);
      Known(shape[..n]) * (if shape[n] == -1 then 1 else shape[n])
  }

  /** Every entry is a positive size or the -1 wildcard. */
  predicate SizesOrWildcard(shape: seq<int>)
  {
    forall k :: 0 <= k < |shape| ==> shape[k] > 0 || shape[k] == -1
  }

  lemma {:induction false} KnownAppend(a: seq<int>, b: seq<int>)
    ensures Known(a + b) == Known(a) * Known(b)
  {
    if |b| > 0 {
      var n := |b| - 1;
      assert (a + b)[..|a + b| - 1] == a + b[..n];
      KnownAppend(a, b[..n]);
      var f := if b[n] == -1 then 1 else b[n];
      assert Known(a + b) == Known(a + b[..n]) * f;
      MulAssoc(Known(a), Known(b[..n]), f);
    } else {
      assert a + b == a;
    }
  }

  lemma {:induction false} KnownIsLength(shape: seq<int>)
    requires -1 !in shape
    ensures Known(shape) == ShapeToArrayLength(shape)
  {
    if |shape| > 0 {
      var n := |shape| - 1;
      assert shape[..n] + [shape[n]] == shape;
      KnownIsLength(shape[..n]);
    }
  }

  /** `(a / b) / c == a / (b * c)` for a non-negative `a`. */
  lemma DivDiv(a: int, b: int, c: int)
    requires a >= 0 && b > 0 && c > 0
    ensures (a / b) / c == a / (b * c)
  {
    var q1 := a / b;
    var q2 := q1 / c;
    var r1, r2 := a % b, q1 % c;
    DivSplit(a, b);
    DivSplit(q1, c);
    assert a == (q2 * c + r2) * b + r1;
    NestedRemainder(b, c, q2, r2, r1);
    DivModUnique(q2, b * c, r2 * b + r1);
  }

  /** Nesting two divisions: `b * (c * q + r2) + r1` splits into a multiple of
    * `b * c` and a remainder below `b * c`. */
  lemma NestedRemainder(b: int, c: int, q: int, r2: int, r1: int)
    requires b > 0 && c > 0 && 0 <= r2 < c && 0 <= r1 < b
    ensures (q * c + r2) * b + r1 == q * (b * c) + (r2 * b + r1)
    ensures 0 <= r2 * b + r1 < b * c
  {
    MulMono(r2, c - 1, b);
    assert (c - 1) * b == b * c - b;
  }

  /** With positive sizes beside the wildcards, the entry-by-entry division is
    * the length divided by the product of the sizes. */
  lemma {:induction false} InferredIsQuotient(len: int, shape: seq<int>)
    requires len >= 0 && SizesOrWildcard(shape)
    ensures InferredSize(len, shape) == len / Known(shape)
  {
    if |shape| > 0 {
      var n := |shape| - 1;
      var init := shape[..n];
      InferredIsQuotient(len, init);
      assert SizesOrWildcard(init);
      if shape[n] != -1 {
        DivDiv(len, Known(init), shape[n]);
      }
    }
  }

  /** The only -1 of `shape` is at position `j`. */
  predicate SingleWildcardAt(shape: seq<int>, j: int)
  {
    && 0 <= j < |shape| && shape[j] == -1
    && forall k :: 0 <= k < |shape| && k != j ==> shape[k] != -1
  }

  lemma MulRearrange(a: int, b: int, c: int)
    ensures a * (b * c) == (c * a) * b
    ensures (b * a) * c == a * (b * c)
  {
  }

  /** With a single -1, the product of the other entries is the length of
    * the shape without that axis. */
  lemma KnownAroundWildcard(shape: seq<int>, j: int)
    requires SingleWildcardAt(shape, j)
    ensures Known(shape) == ShapeToArrayLength(RemoveAt(shape, j))
  {
    var pre, post := shape[..j], shape[j + 1..];
    assert shape == pre + [-1] + post;
    assert forall k :: 0 <= k < |pre| ==> pre[k] == shape[k];
    assert forall k :: 0 <= k < |post| ==> post[k] == shape[j + 1 + k];
    KnownIsLength(pre);
    KnownIsLength(post);
    KnownAppend(pre + [-1], post);
    KnownAppend(pre, [-1]);
    assert Known([-1]) == 1 by {
      assert [-1][..0] == [];
    }
    ProductAppend(pre, post);
    assert RemoveAt(shape, j) == pre + post;
  }

  /** Filling the single -1 with `q` gives a shape of length `q` times the
    * product of the other entries. */
  lemma FillWildcard(shape: seq<int>, j: int, q: int)
    requires SingleWildcardAt(shape, j)
    ensures ShapeToArrayLength(shape[j := q]) == q * Known(shape)
  {
    var pre, post := shape[..j], shape[j + 1..];
    assert shape[j := q] == pre + [q] + post;
    assert RemoveAt(shape, j) == pre + post;
    KnownAroundWildcard(shape, j);
    ProductAround(pre, q, post);
  }

  /** The length of a shape with one axis of size `q` between `pre` and
    * `post`. */
  lemma ProductAround(pre: seq<int>, q: int, post: seq<int>)
    ensures ShapeToArrayLength(pre + [q] + post) == q * ShapeToArrayLength(pre + post)
  {
    var a, b := ShapeToArrayLength(pre), ShapeToArrayLength(post);
    ProductAppend(pre, post);
    ProductAppend(pre + [q], post);
    ProductAppend(pre, [q]);
    assert ShapeToArrayLength([q]) == q by {
      assert [q][..0] == [];
    }
    FillProduct(ShapeToArrayLength(pre + [q] + post), ShapeToArrayLength(pre + [q]),
                ShapeToArrayLength(pre + post), a, b, q);
  }

  lemma FillProduct(r: int, pq: int, k: int, a: int, b: int, q: int)
    requires r == pq * b && pq == a * q && k == a * b
    ensures r == q * k
  {
    assert (a * q) * b == q * (a * b);
  }

  /** Positive divisors beside a single -1: no entry rejects and the -1 found
    * is the one at `j`. */
  lemma InferenceAccepted(len: int, shape: seq<int>, j: int)
    requires len >= 0 && 0 <= j < |shape| && shape[j] == -1
    requires forall k :: 0 <= k < |shape| && k != j ==> shape[k] > 0 && len % shape[k] == 0
    ensures FirstRejection(len, shape) == |shape|
    ensures IndexOf(shape, -1) == j
  {
    forall i | 0 <= i < |shape| ensures !Rejects(len, shape, i) {
      if i == j {
        assert forall k :: 0 <= k < |shape[..j]| ==> shape[..j][k] == shape[k];
      } else {
        assert CsRem(len, shape[i]) == len % shape[i];
      }
    }
  }

  /** With exactly one -1, and other entries that are positive, each divide
    * the length and together divide it, the -1 becomes the length divided by
    * their product and the new shape has the old length. */
  lemma ReshapeInfers(len: int, shape: seq<int>, j: int)
    requires len >= 0 && 0 <= j < |shape| && shape[j] == -1
    requires forall k :: 0 <= k < |shape| && k != j ==> shape[k] > 0 && len % shape[k] == 0
    requires ShapeToArrayLength(RemoveAt(shape, j)) != 0
    requires len % ShapeToArrayLength(RemoveAt(shape, j)) == 0
    ensures ReshapeResult(len, shape) == Ok(shape[j := len / ShapeToArrayLength(RemoveAt(shape, j))])
    ensures ShapeToArrayLength(shape[j := len / ShapeToArrayLength(RemoveAt(shape, j))]) == len
  {
    var p := ShapeToArrayLength(RemoveAt(shape, j));
    assert SingleWildcardAt(shape, j);
    assert SizesOrWildcard(shape);
    KnownAroundWildcard(shape, j);
    InferenceAccepted(len, shape, j);
    InferredIsQuotient(len, shape);
    var q := len / p;
    assert InferredSize(len, shape) == q;
    ResultWhenAccepted(len, shape);
    FillWildcard(shape, j, q);
    DivExact(len, p);
  }

  lemma DivExact(a: int, p: int)
    requires p > 0 && a % p == 0
    ensures (a / p) * p == a
  {
  }

  lemma ResultWhenAccepted(len: int, shape: seq<int>)
    requires -1 in shape && FirstRejection(len, shape) == |shape|
    ensures forall k :: 0 <= k < |shape| ==> shape[k] != 0
    ensures ReshapeResult(len, shape) == Ok(shape[IndexOf(shape, -1) := InferredSize(len, shape)])
  {
  }

  /** The source's scan accepts [4, 6, -1] for a length of 12, since 4 and 6
    * each divide 12, and sets the -1 to (12 / 4) / 6 == 0: the new shape
    * describes 0 elements, not 12. */
  lemma ReshapeAcceptsNonDividingProduct()
    ensures ReshapeResult(12, [4, 6, -1]) == Ok([4, 6, 0])
    ensures ShapeToArrayLength([4, 6, 0]) == 0
  {
    var s := [4, 6, -1];
    assert s[..0] == [] && s[..1] == [4] && s[..2] == [4, 6] && s[2] == -1;
    assert CsRem(12, 4) == 0 && CsRem(12, 6) == 0;
    assert !Rejects(12, s, 0) && !Rejects(12, s, 1) && !Rejects(12, s, 2);
    assert FirstRejection(12, []) == 0;
    assert FirstRejection(12, [4]) == 1;
    assert FirstRejection(12, [4, 6]) == 2;
    assert FirstRejection(12, s) == 3;
    assert IndexOf(s, -1) == 2;
    assert InferredSize(12, [4]) == 3;
    assert InferredSize(12, [4, 6]) == 0;
    assert InferredSize(12, s) == 0;
    assert ReshapeResult(12, s) == Ok(s[2 := InferredSize(12, s)]);
    assert s[2 := 0] == [4, 6, 0];
    assert [4, 6, 0][..2] == [4, 6] && [4, 6, 0][..1] == [4] && [4, 6, 0][..0] == [];
  }

  /** The division of the inferred size checked against what is left of the
    * length, entry by entry: `None` when some entry does not divide it. */
  function ExactQuotient(len: int, shape: seq<int>): Option<int>
  {
    if |shape| == 0 then Some(len)
    else
      var n := |shape| - 1;
      match ExactQuotient(len, shape[..n])
      case None => None
      case Some(d) =>
        if shape[n] == -1 then Some(d)
        else if shape[n] == 0 then None
        else if CsRem(d, shape[n]) != 0 then None
        else Some(CsDiv(d, shape[n]))
  }

  /** Reshape with the divisibility test against the remaining quotient. */
  function CheckedReshapeResult(len: int, shape: seq<int>): Result<seq<int>>
  {
    if -1 !in shape then
      if ShapeToArrayLength(shape) == len then Ok(shape) else Err(SizeMismatch)
    else
      var j := IndexOf(shape, -1);
      if -1 in shape[j + 1..] then Err(MultipleInferred)
      else match ExactQuotient(len, shape)
        case None => Err(ElementSpecification)
        case Some(d) => Ok(shape[j := d])
  }

  lemma {:induction false} ExactQuotientTimesKnown(len: int, shape: seq<int>)
    requires ExactQuotient(len, shape).Some?
    ensures ExactQuotient(len, shape).value * Known(shape) == len
  {
    if |shape| > 0 {
      var n := |shape| - 1;
      var init := shape[..n];
      var x := shape[n];
      ExactQuotientTimesKnown(len, init);
      var d := ExactQuotient(len, init).value;
      var k := Known(init);
      assert d * k == len;
      if x != -1 {
        var q := CsDiv(d, x);
        assert d == x * q;
        assert ExactQuotient(len, shape).value == q;
        assert Known(shape) == k * x;
        MulRearrange(q, k, x);
      }
    }
  }

  /** With the corrected test, every accepted shape has the current length. */
  lemma CheckedReshapeKeepsLength(len: int, shape: seq<int>)
    requires CheckedReshapeResult(len, shape).Ok?
    ensures ShapeToArrayLength(CheckedReshapeResult(len, shape).value) == len
  {
    if -1 in shape {
      var j := IndexOf(shape, -1);
      forall k | 0 <= k < |shape| && k != j ensures shape[k] != -1 {
        if k > j {
          assert shape[j + 1..][k - j - 1] == shape[k];
        } else {
          assert shape[..j][k] == shape[k];
        }
      }
      assert SingleWildcardAt(shape, j);
      ExactQuotientTimesKnown(len, shape);
      FillWildcard(shape, j, ExactQuotient(len, shape).value);
    }
  }

  /** The corrected test rejects the request the source accepts. */
  lemma CheckedReshapeRejectsNonDividingProduct()
    ensures CheckedReshapeResult(12, [4, 6, -1]) == Err(ElementSpecification)
  {
    var s := [4, 6, -1];
    assert s[..2] == [4, 6] && s[..1] == [4] && s[..0] == [];
    assert IndexOf(s, -1) == 2;
    assert s[3..] == [];
    assert ExactQuotient(12, [4]) == Some(3);
    assert ExactQuotient(12, [4, 6]) == None;
  }
}
